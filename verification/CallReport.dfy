/** What a call report says of a value: itself while it is small, otherwise how
    large it is and how it begins, without looking at all of it. */
module CallReport {
  import opened Strings
  import Json

  const PREVIEW_LENGTH: nat := 1024
  const OPAQUE_SIZE: nat := 16

  /** A reported value. A number carries its `str` and its JSON spelling; `Other`
      is anything that is not data, known by the name of its type. */
  datatype Item =
    | Str(s: string)
    | TextData(s: string)
    | Bool(b: bool)
    | Number(text: string, json: string)
    | Null
    | Bytes(bytes: seq<Byte>)
    | List(items: seq<Item>)
    | Dict(entries: seq<Field>)
    | View(nbytes: nat)
    | Other(typeName: string)

  datatype Field = Field(key: string, entry: Item)

  // ── The simple definitions ────────────────────────────────────────────────

  /** The sum over every part of a value, by recursion and with no budget; what
      the loop with a budget is compared with. */
  function FullSize(v: Item): nat {
    match v
    case Str(s) => Utf8Length(s) + 2
    case TextData(s) => Utf8Length(s) + 2
    case Bool(b) => if b then 4 else 5
    case Number(text, _) => |text|
    case Null => 4
    case Bytes(bytes) => |bytes|
    case List(items) => 2 + Commas(|items|) + SizeOfAll(items)
    case Dict(entries) => 2 + SizeOfEntries(entries)
    case View(_) => OPAQUE_SIZE
    case Other(_) => OPAQUE_SIZE
  }

  function Commas(n: nat): nat { if n == 0 then 0 else n - 1 }

  function SizeOfAll(items: seq<Item>): nat {
    if items == [] then 0 else FullSize(items[0]) + SizeOfAll(items[1..])
  }

  function SizeOfEntries(entries: seq<Field>): nat {
    if entries == [] then 0
    else Utf8Length(entries[0].key) + 4 + FullSize(entries[0].entry) + SizeOfEntries(entries[1..])
  }

  /** A value's whole compact JSON. */
  function FullText(v: Item): (t: string)
    decreases v
  {
    match v
    case Str(s) => Json.Quoted(s, false)
    case TextData(s) => Json.Quoted(s, false)
    case Bool(b) => if b then "true" else "false"
    case Number(_, json) => json
    case Null => "null"
    case Bytes(bytes) => "\"<" + Digits(|bytes|) + " bytes>\""
    case List(items) => "[" + RestOfItems(items, false)
    case Dict(entries) => "{" + RestOfEntries(entries, false)
    case View(_) => "\"<memoryview>\""
    case Other(typeName) => "\"<" + typeName + ">\""
  }

  function RestOfItems(items: seq<Item>, comma: bool): string
    decreases items
  {
    if items == [] then "]"
    else (if comma then "," else "") + (FullText(items[0]) + RestOfItems(items[1..], true))
  }

  function RestOfEntries(entries: seq<Field>, comma: bool): string
    decreases entries
  {
    if entries == [] then "}"
    else KeyText(entries[0].key, comma) + (FullText(entries[0].entry) + RestOfEntries(entries[1..], true))
  }

  function KeyText(key: string, comma: bool): string {
    (if comma then "," else "") + Json.Quoted(key, false) + ":"
  }

  function Head(text: string): string { text[..if |text| < PREVIEW_LENGTH then |text| else PREVIEW_LENGTH] }

  const ELLIPSIS: string := [0x2026 as char]

  // ── Measuring no further than a budget ────────────────────────────────────

  /** The UTF-8 length, or the character count where that alone is past the budget. */
  function Utf8LengthUpTo(text: string, budget: int): (n: nat)
    ensures n <= Utf8Length(text)
    ensures n > budget <==> Utf8Length(text) > budget
    ensures n <= budget ==> n == Utf8Length(text)
  {
    if |text| > budget then |text| else Utf8Length(text)
  }

  /** How many values there are, this one and all within it. */
  function Count(v: Item): (n: nat)
    ensures n >= 1
  {
    match v
    case List(items) => 1 + CountAll(items)
    case Dict(entries) => 1 + CountEntries(entries)
    case _ => 1
  }

  function CountAll(items: seq<Item>): nat {
    if items == [] then 0 else Count(items[0]) + CountAll(items[1..])
  }

  function CountEntries(entries: seq<Field>): nat {
    if entries == [] then 0 else Count(entries[0].entry) + CountEntries(entries[1..])
  }

  lemma {:induction false} AllAppend(a: seq<Item>, b: seq<Item>)
    ensures SizeOfAll(a + b) == SizeOfAll(a) + SizeOfAll(b)
    ensures CountAll(a + b) == CountAll(a) + CountAll(b)
  {
    if a == [] {
      assert a + b == b;
    } else {
      assert (a + b)[1..] == a[1..] + b;
      AllAppend(a[1..], b);
    }
  }

  lemma LastOfAll(a: seq<Item>)
    requires a != []
    ensures SizeOfAll(a) == SizeOfAll(a[..|a| - 1]) + FullSize(a[|a| - 1])
    ensures CountAll(a) == CountAll(a[..|a| - 1]) + Count(a[|a| - 1])
  {
    assert a == a[..|a| - 1] + [a[|a| - 1]];
    AllAppend(a[..|a| - 1], [a[|a| - 1]]);
  }

  /** The size of a value, exact while it is within the budget, and known to be
      past it otherwise; at most one value more is visited than the budget has
      units. */
  method SizeUpTo(value: Item, budget: int) returns (total: nat, ghost visited: nat)
    ensures total > budget <==> FullSize(value) > budget
    ensures FullSize(value) <= budget ==> total == FullSize(value)
    ensures visited <= if budget < 0 then 0 else budget + 1
  {
    total, visited := 0, 0;
    var pending := [value];
    AllAppend([value], []);
    assert [value] + [] == [value];
    while pending != [] && total <= budget
      invariant total <= budget ==> total + SizeOfAll(pending) == FullSize(value)
      invariant total <= budget ==> visited + |pending| <= total + 1
      invariant total > budget ==> FullSize(value) > budget
      invariant visited <= if budget < 0 then 0 else budget + 1
      decreases CountAll(pending)
    {
      var item := pending[|pending| - 1];
      LastOfAll(pending);
      pending := pending[..|pending| - 1];
      visited := visited + 1;
      match item {
        case Str(s) => total := total + Utf8LengthUpTo(s, budget - total) + 2;
        case TextData(s) => total := total + Utf8LengthUpTo(s, budget - total) + 2;
        case List(items) =>
          total := total + 2 + Commas(|items|);
          if total > budget { break; }
          AllAppend(pending, items);
          pending := pending + items;
        case Dict(entries) => total, pending := SizeOfDict(entries, total, pending, budget);
        case _ => total := total + FullSize(item);
      }
    }
  }

  /** The keys of a dictionary, its entries put among the pending as they are
      passed; it stops where the budget is. */
  method SizeOfDict(entries: seq<Field>, before: nat, waiting: seq<Item>, budget: int)
    returns (total: nat, pending: seq<Item>)
    ensures total <= budget ==> total + SizeOfAll(pending) == before + 2 + SizeOfEntries(entries) + SizeOfAll(waiting)
    ensures total <= budget ==> |pending| <= |waiting| + (total - before)
    ensures total > budget ==> before + 2 + SizeOfEntries(entries) > budget
    ensures CountAll(pending) <= CountAll(waiting) + CountEntries(entries)
  {
    total, pending := before + 2, waiting;
    assert entries[0..] == entries;
    for i := 0 to |entries|
      invariant total + SizeOfAll(pending) + SizeOfEntries(entries[i..])
             == before + 2 + SizeOfEntries(entries) + SizeOfAll(waiting)
      invariant total + SizeOfEntries(entries[i..]) <= before + 2 + SizeOfEntries(entries)
      invariant i > 0 ==> total <= budget
      invariant |pending| == |waiting| + i && total >= before + 2 + i
      invariant CountAll(pending) + CountEntries(entries[i..]) == CountAll(waiting) + CountEntries(entries)
    {
      var Field(key, entry) := entries[i];
      assert entries[i..][1..] == entries[i + 1..];
      ghost var all := total + Utf8Length(key) + 4;
      total := total + Utf8LengthUpTo(key, budget - total) + 4;
      if total > budget {
        return;
      }
      AllAppend(pending, [entry]);
      assert [entry][1..] == [];
      pending := pending + [entry];
    }
  }

  // ── Writing no further than the preview ───────────────────────────────────

  /** What has been written of a preview. */
  class Writer {
    var out: string

    constructor ()
      ensures out == ""
    {
      out := "";
    }

    /** Follows on what is written. True, and it is the whole of the item, while
        the preview is not full; false once it is, and then it begins as the
        whole would, whatever was left unwritten. */
    method Write(item: Item) returns (more: bool)
      modifies this
      ensures more == (|out| < PREVIEW_LENGTH)
      ensures more ==> out == old(out) + FullText(item)
      ensures !more ==> Begins(out, old(out) + FullText(item))
      decreases item, 1
    {
      if |out| >= PREVIEW_LENGTH {
        return false;
      }
      match item {
        case Str(s) => WriteText(s);
        case TextData(s) => WriteText(s);
        case List(items) =>
          more := WriteItems(items);
          if !more { return; }
        case Dict(entries) =>
          more := WriteEntries(entries);
          if !more { return; }
        case _ => out := out + FullText(item);
      }
      more := |out| < PREVIEW_LENGTH;
    }

    /** A string is cut before it is escaped, since no character is written as
        less than one. */
    method WriteText(s: string)
      requires |out| < PREVIEW_LENGTH
      modifies this
      ensures |out| < PREVIEW_LENGTH ==> out == old(out) + Json.Quoted(s, false)
      ensures |out| >= PREVIEW_LENGTH ==> Begins(out, old(out) + Json.Quoted(s, false))
    {
      var left := PREVIEW_LENGTH - |out|;
      if |s| <= left {
        out := out + Json.Quoted(s, false);
      } else {
        CutQuoted(s, left);
        out := out + Json.Quoted(s[..left], false);
      }
    }

    method WriteItems(items: seq<Item>) returns (more: bool)
      requires |out| < PREVIEW_LENGTH
      modifies this
      ensures more ==> out == old(out) + FullText(List(items))
      ensures !more ==> |out| >= PREVIEW_LENGTH && Begins(out, old(out) + FullText(List(items)))
      decreases items, 0
    {
      ghost var whole := out + FullText(List(items));
      out := out + "[";
      assert items[0..] == items;
      for i := 0 to |items|
        invariant whole == out + RestOfItems(items[i..], i > 0)
      {
        NextItem(out, items, i);
        if i > 0 {
          out := out + ",";
        }
        ghost var written := out;
        more := Write(items[i]);
        if !more {
          Longer(out, written + FullText(items[i]), RestOfItems(items[i + 1..], true));
          return false;
        }
      }
      out := out + "]";
      more := true;
    }

    method WriteEntries(entries: seq<Field>) returns (more: bool)
      requires |out| < PREVIEW_LENGTH
      modifies this
      ensures more ==> out == old(out) + FullText(Dict(entries))
      ensures !more ==> |out| >= PREVIEW_LENGTH && Begins(out, old(out) + FullText(Dict(entries)))
      decreases entries, 0
    {
      ghost var whole := out + FullText(Dict(entries));
      out := out + "{";
      assert entries[0..] == entries;
      for i := 0 to |entries|
        invariant whole == out + RestOfEntries(entries[i..], i > 0)
      {
        ghost var written := out;
        NextEntry(out, entries, i);
        more := WriteEntry(entries[i], i > 0);
        if !more {
          Longer(out, written + EntryText(entries[i], i > 0), RestOfEntries(entries[i + 1..], true));
          return false;
        }
      }
      out := out + "}";
      more := true;
    }

    method WriteEntry(e: Field, comma: bool) returns (more: bool)
      modifies this
      ensures more == (|out| < PREVIEW_LENGTH)
      ensures more ==> out == old(out) + EntryText(e, comma)
      ensures !more ==> Begins(out, old(out) + EntryText(e, comma))
      decreases e, 0
    {
      out := out + KeyText(e.key, comma);
      assert out + FullText(e.entry) == old(out) + EntryText(e, comma);
      more := Write(e.entry);
    }
  }

  function EntryText(e: Field, comma: bool): string { KeyText(e.key, comma) + FullText(e.entry) }

  lemma NextItem(out: string, items: seq<Item>, i: nat)
    requires i < |items|
    ensures out + RestOfItems(items[i..], i > 0) ==
            (if i > 0 then out + "," else out) + FullText(items[i]) + RestOfItems(items[i + 1..], true)
  {
    assert items[i..][1..] == items[i + 1..];
  }

  lemma NextEntry(out: string, entries: seq<Field>, i: nat)
    requires i < |entries|
    ensures out + RestOfEntries(entries[i..], i > 0) ==
            out + EntryText(entries[i], i > 0) + RestOfEntries(entries[i + 1..], true)
  {
    assert entries[i..][1..] == entries[i + 1..];
  }

  /** Both reach the preview's length and agree that far. */
  ghost predicate Begins(out: string, whole: string) {
    |out| >= PREVIEW_LENGTH && |whole| >= PREVIEW_LENGTH && out[..PREVIEW_LENGTH] == whole[..PREVIEW_LENGTH]
  }

  lemma Longer(out: string, part: string, rest: string)
    requires Begins(out, part)
    ensures Begins(out, part + rest)
  {
  }

  lemma SameBeginning(a: string, b: string, common: string, n: nat)
    requires common <= a && common <= b && n <= |common|
    ensures a[..n] == b[..n]
  {
    assert a[..n] == common[..n];
  }

  /** The literal of the first `n` characters begins as that of the whole does,
      for at least `n` characters. */
  lemma CutQuoted(s: string, n: nat)
    requires n < |s|
    ensures var cut, whole := Json.Quoted(s[..n], false), Json.Quoted(s, false);
            |cut| >= n && |whole| >= n && cut[..n] == whole[..n]
  {
    var cut, rest := Json.Escape(s[..n], false), Json.Escape(s[n..], false);
    assert s == s[..n] + s[n..];
    Json.EscapeAppend(s[..n], s[n..], false);
    assert "\"" + (cut + rest) + "\"" == "\"" + cut + (rest + "\"");
    SameBeginning(Json.Quoted(s[..n], false), Json.Quoted(s, false), "\"" + cut, n);
  }

  /** The whole text while it is shorter than 1024 characters, otherwise its
      first 1024 and an ellipsis. */
  ghost predicate Previews(text: string, whole: string) {
    if |whole| < 1024 then text == whole
    else |text| == 1025 && text[..1024] == whole[..1024] && text[1024] as int == 0x2026
  }

  method Preview(value: Item) returns (text: string)
    ensures Previews(text, FullText(value))
  {
    var writer := new Writer();
    var complete := writer.Write(value);
    text := if complete then writer.out else Head(writer.out) + ELLIPSIS;
    assert "" + FullText(value) == FullText(value);
  }

  // ── The report ────────────────────────────────────────────────────────────

  datatype Reported = AsItIs | TooLarge(kind: string, size: nat, exact: bool, preview: Option<string>)

  /** A value is reported as it is exactly while its size is within the limit;
      past it the description says so. A text's size is exact unless it has more
      characters than the limit; a container's is not. */
  method ReportedValue(value: Item, limit: nat) returns (r: Reported)
    ensures match value
            case Str(s) => DescribesText(r, s, limit)
            case TextData(s) => DescribesText(r, s, limit)
            case Bytes(bytes) => r == if |bytes| > limit then TooLarge("binary", |bytes|, true, None) else AsItIs
            case View(n) => r == if n > limit then TooLarge("binary", n, true, None) else AsItIs
            case List(_) => DescribesData(r, value, limit)
            case Dict(_) => DescribesData(r, value, limit)
            case _ => r == AsItIs
  {
    match value {
      case Str(s) => r := ReportedText(s, limit);
      case TextData(s) => r := ReportedText(s, limit);
      case Bytes(bytes) => r := if |bytes| > limit then TooLarge("binary", |bytes|, true, None) else AsItIs;
      case View(n) => r := if n > limit then TooLarge("binary", n, true, None) else AsItIs;
      case List(_) => r := ReportedData(value, limit);
      case Dict(_) => r := ReportedData(value, limit);
      case _ => r := AsItIs;
    }
  }

  ghost predicate DescribesText(r: Reported, s: string, limit: nat) {
    && (r.AsItIs? <==> Utf8Length(s) <= limit)
    && (r.TooLarge? ==>
          && r.kind == "string" && r.size > limit
          && r.preview == Some(s[..if |s| < 1024 then |s| else 1024])
          && (r.exact <==> |s| <= limit) && r.size == if r.exact then Utf8Length(s) else |s|)
  }

  ghost predicate DescribesData(r: Reported, v: Item, limit: nat) {
    && (r.AsItIs? <==> FullSize(v) <= limit)
    && (r.TooLarge? ==> r.kind == "json" && r.size > limit && !r.exact && r.preview.Some? && Previews(r.preview.value, FullText(v)))
  }

  method ReportedText(s: string, limit: nat) returns (r: Reported)
    ensures DescribesText(r, s, limit)
  {
    var size := Utf8LengthUpTo(s, limit);
    r := if size > limit then TooLarge("string", size, |s| <= limit, Some(Head(s))) else AsItIs;
  }

  method ReportedData(v: Item, limit: nat) returns (r: Reported)
    ensures DescribesData(r, v, limit)
  {
    var size, _ := SizeUpTo(v, limit);
    if size > limit {
      var preview := Preview(v);
      r := TooLarge("json", size, false, Some(preview));
    } else {
      r := AsItIs;
    }
  }
}
