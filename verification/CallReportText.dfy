/** What the text of a value says, read as JSON is read (RFC 8259, with no white
    space in it), and how its length compares with the value's size. */
module CallReportText {
  import opened Strings
  import Json
  import opened CallReport

  datatype Data =
    | Text(s: string)
    | Truth(b: bool)
    | Numeral(text: string)
    | Nothing
    | Array(items: seq<Data>)
    | Object(members: seq<Member>)

  datatype Member = Member(name: string, data: Data)

  // ── Reading ───────────────────────────────────────────────────────────────

  /** The characters of names and numerals. */
  predicate IsWordChar(c: char) {
    IsDigit(c) || 'a' <= c <= 'z' || 'A' <= c <= 'Z' || c == '+' || c == '-' || c == '.'
  }

  function WordLength(s: string): (n: nat)
    ensures n <= |s|
  {
    if s == "" || !IsWordChar(s[0]) then 0 else 1 + WordLength(s[1..])
  }

  function WordData(word: string): Data {
    if word == "true" then Truth(true)
    else if word == "false" then Truth(false)
    else if word == "null" then Nothing
    else Numeral(word)
  }

  lemma {:induction false} UnquotesOff(s: string)
    ensures Json.Unquote(s).Some? ==> |Json.Unquote(s).value.1| < |s|
    decreases |s|
  {
    if s != "" {
      UnquotesOff(s[1..]);
      if |s| >= 2 {
        UnquotesOff(s[2..]);
      }
      if |s| >= 6 {
        UnquotesOff(s[6..]);
      }
      if |s| >= 12 {
        UnquotesOff(s[12..]);
      }
    }
  }

  /** One value at the front of a text, and what follows it. */
  function Read(s: string): (r: Option<(Data, string)>)
    ensures r.Some? ==> |r.value.1| < |s|
    decreases |s|, 0
  {
    if s == "" then None
    else if s[0] == '"' then
      UnquotesOff(s[1..]);
      var text := Json.Unquote(s[1..]);
      if text.None? then None else Some((Text(text.value.0), text.value.1))
    else if s[0] == '[' then
      var items := ReadItems(s[1..], true);
      if items.None? then None else Some((Array(items.value.0), items.value.1))
    else if s[0] == '{' then
      var members := ReadMembers(s[1..], true);
      if members.None? then None else Some((Object(members.value.0), members.value.1))
    else
      var n := WordLength(s);
      if n == 0 then None else Some((WordData(s[..n]), s[n..]))
  }

  /** The values up to the closing bracket, behind a comma each but the first. */
  function ReadItems(s: string, first: bool): (r: Option<(seq<Data>, string)>)
    ensures r.Some? ==> |r.value.1| < |s|
    decreases |s|, 1
  {
    if s == "" then None
    else if s[0] == ']' then Some(([], s[1..]))
    else if !first && s[0] != ',' then None
    else
      var item := Read(if first then s else s[1..]);
      if item.None? then None
      else
        var others := ReadItems(item.value.1, false);
        if others.None? then None else Some(([item.value.0] + others.value.0, others.value.1))
  }

  function ReadMembers(s: string, first: bool): (r: Option<(seq<Member>, string)>)
    ensures r.Some? ==> |r.value.1| < |s|
    decreases |s|, 1
  {
    if s == "" then None
    else if s[0] == '}' then Some(([], s[1..]))
    else if !first && s[0] != ',' then None
    else
      var member := ReadMember(if first then s else s[1..]);
      if member.None? then None
      else
        var others := ReadMembers(member.value.1, false);
        if others.None? then None else Some(([member.value.0] + others.value.0, others.value.1))
  }

  function ReadMember(s: string): (r: Option<(Member, string)>)
    ensures r.Some? ==> |r.value.1| < |s|
    decreases |s|, 0
  {
    if s == "" || s[0] != '"' then None
    else
      UnquotesOff(s[1..]);
      var name := Json.Unquote(s[1..]);
      if name.None? || name.value.1 == "" || name.value.1[0] != ':' then None
      else
        var data := Read(name.value.1[1..]);
        if data.None? then None else Some((Member(name.value.0, data.value.0), data.value.1))
  }

  // ── What a value's text stands for ────────────────────────────────────────

  function DataOf(v: Item): Data
    decreases v
  {
    match v
    case Str(s) => Text(s)
    case TextData(s) => Text(s)
    case Bool(b) => Truth(b)
    case Number(_, json) => Numeral(json)
    case Null => Nothing
    case Bytes(bytes) => Text("<" + Digits(|bytes|) + " bytes>")
    case List(items) => Array(DataOfAll(items))
    case Dict(entries) => Object(MembersOf(entries))
    case View(_) => Text("<memoryview>")
    case Other(typeName) => Text("<" + typeName + ">")
  }

  function DataOfAll(items: seq<Item>): seq<Data>
    decreases items
  {
    if items == [] then [] else [DataOf(items[0])] + DataOfAll(items[1..])
  }

  function MembersOf(entries: seq<Field>): seq<Member>
    decreases entries
  {
    if entries == [] then [] else [Member(entries[0].key, DataOf(entries[0].entry))] + MembersOf(entries[1..])
  }

  predicate IsWord(s: string) { s != "" && forall i | 0 <= i < |s| :: IsWordChar(s[i]) }

  /** Text that is written as it is. */
  predicate Unescaped(s: string) {
    forall i | 0 <= i < |s| :: s[i] != '"' && s[i] != '\\' && s[i] as int >= 0x20
  }

  /** Numbers spelled as numbers, and type names as names are. */
  predicate Spelled(v: Item)
    decreases v
  {
    match v
    case Number(_, json) => IsWord(json) && json !in ["true", "false", "null"]
    case List(items) => AllSpelled(items)
    case Dict(entries) => EntriesSpelled(entries)
    case Other(typeName) => Unescaped(typeName)
    case _ => true
  }

  predicate AllSpelled(items: seq<Item>)
    decreases items
  {
    items == [] || (Spelled(items[0]) && AllSpelled(items[1..]))
  }

  predicate EntriesSpelled(entries: seq<Field>)
    decreases entries
  {
    entries == [] || (Spelled(entries[0].entry) && EntriesSpelled(entries[1..]))
  }

  predicate Ends(rest: string) { rest == "" || !IsWordChar(rest[0]) }

  lemma {:induction false} WordEnds(word: string, rest: string)
    requires Ends(rest) && forall i | 0 <= i < |word| :: IsWordChar(word[i])
    ensures WordLength(word + rest) == |word|
  {
    if word == "" {
      assert word + rest == rest;
    } else {
      assert (word + rest)[1..] == word[1..] + rest;
      WordEnds(word[1..], rest);
    }
  }

  lemma ReadsWord(word: string, rest: string)
    requires IsWord(word) && Ends(rest)
    ensures Read(word + rest) == Some((WordData(word), rest))
  {
    var s := word + rest;
    WordEnds(word, rest);
    assert s[0] == word[0] && s[..|word|] == word && s[|word|..] == rest;
  }

  lemma {:induction false} EscapesNothing(s: string)
    requires Unescaped(s)
    ensures Json.Escape(s, false) == s
  {
    if s != "" {
      EscapesNothing(s[1..]);
      assert [s[0]] + s[1..] == s;
    }
  }

  lemma ReadOfText(s: string, text: string, rest: string)
    requires s != "" && s[0] == '"' && Json.Unquote(s[1..]) == Some((text, rest))
    ensures Read(s) == Some((Text(text), rest))
  {
  }

  lemma ReadOfItems(s: string, items: seq<Data>, rest: string)
    requires s != "" && s[0] == '[' && ReadItems(s[1..], true) == Some((items, rest))
    ensures Read(s) == Some((Array(items), rest))
  {
  }

  lemma ReadOfMembers(s: string, members: seq<Member>, rest: string)
    requires s != "" && s[0] == '{' && ReadMembers(s[1..], true) == Some((members, rest))
    ensures Read(s) == Some((Object(members), rest))
  {
  }

  lemma QuotedSplits(s: string, rest: string)
    ensures Json.Quoted(s, false) + rest == "\"" + (Json.Escape(s, false) + ("\"" + rest))
  {
    var e := Json.Escape(s, false);
    Regroup("\"", e, "\"");
    Regroup("\"", e + "\"", rest);
    Regroup(e, "\"", rest);
  }

  lemma BehindFirst(c: char, s: string)
    ensures ([c] + s)[1..] == s && ([c] + s)[0] == c && [c] + s != ""
  {
  }

  lemma ReadsQuoted(s: string, rest: string)
    ensures Read(Json.Quoted(s, false) + rest) == Some((Text(s), rest))
  {
    var behind := Json.Escape(s, false) + ("\"" + rest);
    QuotedSplits(s, rest);
    BehindFirst('"', behind);
    Json.UnquoteUndoesQuoted(s, false, rest);
    ReadOfText(Json.Quoted(s, false) + rest, s, rest);
  }

  lemma ReadsPlain(s: string, rest: string)
    requires Unescaped(s)
    ensures Read("\"<" + s + ">\"" + rest) == Some((Text("<" + s + ">"), rest))
  {
    EscapesNothing("<" + s + ">");
    assert Json.Quoted("<" + s + ">", false) == "\"<" + s + ">\"";
    ReadsQuoted("<" + s + ">", rest);
  }

  lemma BytesText(n: nat)
    ensures Unescaped(Digits(n) + " bytes")
    ensures "\"<" + (Digits(n) + " bytes") + ">\"" == "\"<" + Digits(n) + " bytes>\""
    ensures "<" + (Digits(n) + " bytes") + ">" == "<" + Digits(n) + " bytes>"
  {
    var s := Digits(n) + " bytes";
    forall i | 0 <= i < |s|
      ensures s[i] != '"' && s[i] != '\\' && s[i] as int >= 0x20
    {
      if i < |Digits(n)| {
        assert IsDigit(Digits(n)[i]);
      } else {
        assert s[i] == " bytes"[i - |Digits(n)|];
      }
    }
  }

  lemma ReadsBytes(bytes: seq<Byte>, rest: string)
    ensures Read(FullText(Bytes(bytes)) + rest) == Some((DataOf(Bytes(bytes)), rest))
  {
    BytesText(|bytes|);
    ReadsPlain(Digits(|bytes|) + " bytes", rest);
  }

  lemma ReadsLeaf(v: Item, rest: string)
    requires Spelled(v) && Ends(rest) && !v.List? && !v.Dict?
    ensures Read(FullText(v) + rest) == Some((DataOf(v), rest))
  {
    match v
    case Str(s) => ReadsQuoted(s, rest);
    case TextData(s) => ReadsQuoted(s, rest);
    case Bool(b) => ReadsWord(if b then "true" else "false", rest);
    case Number(_, json) => ReadsWord(json, rest);
    case Null => ReadsWord("null", rest);
    case Bytes(bytes) => ReadsBytes(bytes, rest);
    case View(_) =>
      ReadsPlain("memoryview", rest);
      assert "\"<" + "memoryview" + ">\"" == "\"<memoryview>\"" && "<" + "memoryview" + ">" == "<memoryview>";
    case Other(typeName) => ReadsPlain(typeName, rest);
  }

  /** The text of a value, read as JSON, is that value: lists and dictionaries
      entry by entry and in order, what is no data as its description. */
  lemma {:induction false} TextReadsBack(v: Item, rest: string)
    requires Spelled(v) && Ends(rest)
    ensures Read(FullText(v) + rest) == Some((DataOf(v), rest))
    decreases v, 1
  {
    if v.List? {
      ItemsReadBack(v.items, true, rest);
      ListReads(v.items, rest);
    } else if v.Dict? {
      EntriesReadBack(v.entries, true, rest);
      DictReads(v.entries, rest);
    } else {
      ReadsLeaf(v, rest);
    }
  }

  lemma ListReads(items: seq<Item>, rest: string)
    requires ReadItems(RestOfItems(items, false) + rest, true) == Some((DataOfAll(items), rest))
    ensures Read(FullText(List(items)) + rest) == Some((DataOf(List(items)), rest))
  {
    var behind := RestOfItems(items, false) + rest;
    Regroup("[", RestOfItems(items, false), rest);
    BehindFirst('[', behind);
    ReadOfItems("[" + behind, DataOfAll(items), rest);
  }

  lemma DictReads(entries: seq<Field>, rest: string)
    requires ReadMembers(RestOfEntries(entries, false) + rest, true) == Some((MembersOf(entries), rest))
    ensures Read(FullText(Dict(entries)) + rest) == Some((DataOf(Dict(entries)), rest))
  {
    var behind := RestOfEntries(entries, false) + rest;
    Regroup("{", RestOfEntries(entries, false), rest);
    BehindFirst('{', behind);
    ReadOfMembers("{" + behind, MembersOf(entries), rest);
  }

  lemma TextBegins(v: Item, rest: string)
    requires Spelled(v)
    ensures var s := FullText(v) + rest; s != "" && s[0] !in "]},"
  {
    var text := FullText(v);
    assert text != "" && text[0] !in "]}," by {
      match v
      case Number(_, json) => assert IsWordChar(json[0]);
      case Str(s) => assert text[0] == '"';
      case TextData(s) => assert text[0] == '"';
      case Bytes(_) => assert text[0] == '"';
      case List(_) => assert text[0] == '[';
      case Dict(_) => assert text[0] == '{';
      case _ =>
    }
    assert (text + rest)[0] == text[0];
  }

  /** One more value, behind its comma. */
  lemma OneMoreItem(one: string, first: bool, item: Data, tail: string, others: seq<Data>, rest: string)
    requires one != "" && one[0] !in "]}," && Read(one) == Some((item, tail))
    requires ReadItems(tail, false) == Some((others, rest))
    ensures ReadItems(if first then one else "," + one, first) == Some(([item] + others, rest))
  {
    BehindFirst(',', one);
  }

  lemma OneMoreMember(one: string, first: bool, member: Member, tail: string, others: seq<Member>, rest: string)
    requires one != "" && one[0] !in "]}," && ReadMember(one) == Some((member, tail))
    requires ReadMembers(tail, false) == Some((others, rest))
    ensures ReadMembers(if first then one else "," + one, first) == Some(([member] + others, rest))
  {
    BehindFirst(',', one);
  }

  lemma ItemsBegin(items: seq<Item>, first: bool, rest: string)
    requires items != []
    ensures var one := FullText(items[0]) + (RestOfItems(items[1..], true) + rest);
            RestOfItems(items, !first) + rest == if first then one else "," + one
  {
    var text, tail := FullText(items[0]), RestOfItems(items[1..], true);
    Regroup(text, tail, rest);
    Regroup(",", text + tail, rest);
    assert "" + (text + tail) == text + tail;
  }

  lemma TailEnds(items: seq<Item>, rest: string)
    ensures Ends(RestOfItems(items, true) + rest)
  {
  }

  lemma {:induction false} ItemsReadBack(items: seq<Item>, first: bool, rest: string)
    requires AllSpelled(items)
    ensures ReadItems(RestOfItems(items, !first) + rest, first) == Some((DataOfAll(items), rest))
    decreases items, 0
  {
    if items == [] {
      BehindFirst(']', rest);
    } else {
      var tail := RestOfItems(items[1..], true) + rest;
      TailEnds(items[1..], rest);
      TextReadsBack(items[0], tail);
      TextBegins(items[0], tail);
      ItemsReadBack(items[1..], false, rest);
      ItemsBegin(items, first, rest);
      OneMoreItem(FullText(items[0]) + tail, first, DataOf(items[0]), tail, DataOfAll(items[1..]), rest);
    }
  }

  lemma ReadOfMember(s: string, name: string, behind: string, data: Data, rest: string)
    requires s != "" && s[0] == '"' && Json.Unquote(s[1..]) == Some((name, ":" + behind)) && Read(behind) == Some((data, rest))
    ensures ReadMember(s) == Some((Member(name, data), rest))
  {
    BehindFirst(':', behind);
  }

  lemma ReadsMember(key: string, v: Item, rest: string)
    requires Read(FullText(v) + rest) == Some((DataOf(v), rest))
    ensures var s := KeyText(key, false) + (FullText(v) + rest);
            s != "" && s[0] == '"' && ReadMember(s) == Some((Member(key, DataOf(v)), rest))
  {
    var behind := FullText(v) + rest;
    var escaped := Json.Escape(key, false) + ("\"" + (":" + behind));
    QuotedSplits(key, ":" + behind);
    Regroup(Json.Quoted(key, false), ":", behind);
    assert "" + Json.Quoted(key, false) == Json.Quoted(key, false);
    BehindFirst('"', escaped);
    Json.UnquoteUndoesQuoted(key, false, ":" + behind);
    ReadOfMember("\"" + escaped, key, behind, DataOf(v), rest);
  }

  lemma EntriesBegin(entries: seq<Field>, first: bool, rest: string)
    requires entries != []
    ensures var one := KeyText(entries[0].key, false) + (FullText(entries[0].entry) + (RestOfEntries(entries[1..], true) + rest));
            RestOfEntries(entries, !first) + rest == if first then one else "," + one
  {
    var key, text, tail := KeyText(entries[0].key, false), FullText(entries[0].entry), RestOfEntries(entries[1..], true);
    KeyBegins(entries[0].key);
    Regroup(text, tail, rest);
    Regroup(key, text + tail, rest);
    Regroup(",", key, text + tail);
    Regroup(",", key + (text + tail), rest);
  }

  lemma KeyBegins(key: string)
    ensures KeyText(key, true) == "," + KeyText(key, false)
  {
    Regroup(",", Json.Quoted(key, false), ":");
    assert "" + Json.Quoted(key, false) == Json.Quoted(key, false);
  }

  lemma EntriesTailEnds(entries: seq<Field>, rest: string)
    ensures Ends(RestOfEntries(entries, true) + rest)
  {
  }

  lemma {:induction false} EntriesReadBack(entries: seq<Field>, first: bool, rest: string)
    requires EntriesSpelled(entries)
    ensures ReadMembers(RestOfEntries(entries, !first) + rest, first) == Some((MembersOf(entries), rest))
    decreases entries, 0
  {
    if entries == [] {
      BehindFirst('}', rest);
    } else {
      var e, tail := entries[0], RestOfEntries(entries[1..], true) + rest;
      EntriesTailEnds(entries[1..], rest);
      TextReadsBack(e.entry, tail);
      ReadsMember(e.key, e.entry, tail);
      EntriesReadBack(entries[1..], false, rest);
      EntriesBegin(entries, first, rest);
      OneMoreMember(KeyText(e.key, false) + (FullText(e.entry) + tail), first, Member(e.key, DataOf(e.entry)), tail,
                    MembersOf(entries[1..]), rest);
    }
  }

  // ── How long the text is ──────────────────────────────────────────────────

  lemma {:induction false} Utf8Append(s: string, t: string)
    ensures Utf8(s + t) == Utf8(s) + Utf8(t)
  {
    if s == "" {
      assert s + t == t;
    } else {
      assert (s + t)[1..] == s[1..] + t;
      Utf8Append(s[1..], t);
    }
  }

  /** How many bytes escaping adds to a text. */
  function Escapes(s: string): int { Utf8Length(Json.Escape(s, false)) - Utf8Length(s) }

  lemma {:induction false} EscapingAdds(s: string)
    ensures Escapes(s) >= 0 && (Unescaped(s) ==> Escapes(s) == 0)
  {
    if s != "" {
      EscapingAdds(s[1..]);
      Utf8Append(Json.EscapeChar(s[0], false), Json.Escape(s[1..], false));
      CharEscapes(s[0]);
    }
  }

  lemma CharEscapes(c: char)
    ensures Utf8Length(Json.EscapeChar(c, false)) >= |Utf8Char(c)|
    ensures Unescaped([c]) ==> Utf8Length(Json.EscapeChar(c, false)) == |Utf8Char(c)|
  {
    assert [c][1..] == [];
    assert Utf8([c]) == Utf8Char(c);
    if c as int < 0x80 {
      assert |Utf8Char(c)| == 1;
    } else {
      assert Json.EscapeChar(c, false) == [c];
    }
  }

  /** What is sent as JSON as it is: no binary, and numbers whose two spellings
      agree. */
  predicate IsData(v: Item)
    decreases v
  {
    match v
    case Number(text, json) => text == json && IsWord(json)
    case List(items) => AllData(items)
    case Dict(entries) => EntriesData(entries)
    case _ => !v.Bytes? && !v.View? && !v.Other?
  }

  predicate AllData(items: seq<Item>)
    decreases items
  {
    items == [] || (IsData(items[0]) && AllData(items[1..]))
  }

  predicate EntriesData(entries: seq<Field>)
    decreases entries
  {
    entries == [] || (IsData(entries[0].entry) && EntriesData(entries[1..]))
  }

  /** What escaping adds throughout a value. */
  function EscapesIn(v: Item): int
    decreases v
  {
    match v
    case Str(s) => Escapes(s)
    case TextData(s) => Escapes(s)
    case List(items) => EscapesInAll(items)
    case Dict(entries) => EscapesInEntries(entries)
    case _ => 0
  }

  function EscapesInAll(items: seq<Item>): int
    decreases items
  {
    if items == [] then 0 else EscapesIn(items[0]) + EscapesInAll(items[1..])
  }

  function EscapesInEntries(entries: seq<Field>): int
    decreases entries
  {
    if entries == [] then 0
    else Escapes(entries[0].key) + EscapesIn(entries[0].entry) + EscapesInEntries(entries[1..])
  }

  /** The dictionaries within a value that hold anything. */
  function Filled(v: Item): nat
    decreases v
  {
    match v
    case List(items) => FilledInAll(items)
    case Dict(entries) => (if entries == [] then 0 else 1) + FilledInEntries(entries)
    case _ => 0
  }

  function FilledInAll(items: seq<Item>): nat
    decreases items
  {
    if items == [] then 0 else Filled(items[0]) + FilledInAll(items[1..])
  }

  function FilledInEntries(entries: seq<Field>): nat
    decreases entries
  {
    if entries == [] then 0 else Filled(entries[0].entry) + FilledInEntries(entries[1..])
  }

  /** ASCII takes one byte a character. */
  lemma {:induction false} AsciiLength(s: string)
    requires forall i | 0 <= i < |s| :: s[i] as int < 0x80
    ensures Utf8Length(s) == |s|
  {
    if s != "" {
      AsciiLength(s[1..]);
    }
  }

  lemma QuotedLength(s: string)
    ensures Utf8Length(Json.Quoted(s, false)) == Utf8Length(s) + Escapes(s) + 2
  {
    AsciiLength("\"");
    Utf8Append("\"", Json.Escape(s, false));
    Utf8Append("\"" + Json.Escape(s, false), "\"");
  }

  lemma JoinedLength(a: string, b: string)
    ensures Utf8Length(a + b) == Utf8Length(a) + Utf8Length(b)
  {
    Utf8Append(a, b);
  }

  lemma KeyLength(key: string, comma: bool)
    ensures Utf8Length(KeyText(key, comma)) == Utf8Length(key) + Escapes(key) + (if comma then 4 else 3)
  {
    var sep := if comma then "," else "";
    AsciiLength(sep);
    AsciiLength(":");
    QuotedLength(key);
    JoinedLength(sep, Json.Quoted(key, false));
    JoinedLength(sep + Json.Quoted(key, false), ":");
  }

  lemma {:induction false} ItemsLength(items: seq<Item>, comma: bool)
    requires AllData(items)
    ensures SizeOfAll(items) + EscapesInAll(items) + 1 + (if comma then |items| else Commas(|items|)) ==
            Utf8Length(RestOfItems(items, comma)) + FilledInAll(items)
    decreases items, 0
  {
    if items == [] {
      AsciiLength("]");
    } else {
      var sep, text, tail := if comma then "," else "", FullText(items[0]), RestOfItems(items[1..], true);
      SizeIsTextLength(items[0]);
      ItemsLength(items[1..], true);
      AsciiLength(sep);
      JoinedLength(text, tail);
      JoinedLength(sep, text + tail);
    }
  }

  lemma {:induction false} EntriesLength(entries: seq<Field>, comma: bool)
    requires EntriesData(entries)
    ensures SizeOfEntries(entries) + EscapesInEntries(entries) + 1 ==
            Utf8Length(RestOfEntries(entries, comma)) + FilledInEntries(entries) + (if comma || entries == [] then 0 else 1)
    decreases entries, 0
  {
    if entries == [] {
      AsciiLength("}");
    } else {
      var key, text, tail := KeyText(entries[0].key, comma), FullText(entries[0].entry), RestOfEntries(entries[1..], true);
      SizeIsTextLength(entries[0].entry);
      EntriesLength(entries[1..], true);
      KeyLength(entries[0].key, comma);
      JoinedLength(text, tail);
      JoinedLength(key, text + tail);
    }
  }

  /** The size of data is the number of bytes its JSON takes in UTF-8, less what
      escaping adds, and one more for each dictionary that holds anything. */
  lemma {:induction false} SizeIsTextLength(v: Item)
    requires IsData(v)
    ensures FullSize(v) + EscapesIn(v) == Utf8Length(FullText(v)) + Filled(v)
    decreases v, 1
  {
    match v
    case Str(s) => QuotedLength(s);
    case TextData(s) => QuotedLength(s);
    case Bool(b) => AsciiLength(if b then "true" else "false");
    case Number(_, json) => AsciiLength(json);
    case Null => AsciiLength("null");
    case List(items) =>
      ItemsLength(items, false);
      AsciiLength("[");
      JoinedLength("[", RestOfItems(items, false));
    case Dict(entries) =>
      EntriesLength(entries, false);
      AsciiLength("{");
      JoinedLength("{", RestOfEntries(entries, false));
    case _ =>
  }
}
