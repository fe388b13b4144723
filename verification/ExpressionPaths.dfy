/** The text a missing read is reported under, and what the parser makes of it. */
module ExpressionPaths {
  import opened Strings
  import opened ExpressionTree
  import opened ExpressionGrammar
  import opened ExpressionForms
  import opened ExpressionRoundTrip
  import opened ExpressionPrinting
  import opened ExpressionEvaluation
  import opened Json
  import V = Values

  // ── Quoted keys ───────────────────────────────────────────────────────────

  /** What a literal written by `json.dumps` keeps when the parser reads it:
      printable ASCII, and the three escapes the parser knows. */
  predicate IsPlain(c: char) { ' ' <= c <= '~' || c in ['\n', '\t', '\r'] }

  predicate AllPlain(s: string) { forall i | 0 <= i < |s| :: IsPlain(s[i]) }

  /** A character as the parser reads its escape back. */
  function ReadBack(c: char): (s: string)
    ensures |s| >= 1
    ensures IsPlain(c) ==> s == [c]
    ensures !IsPlain(c) ==> s[0] != c
  {
    if IsPlain(c) then [c] else DropBackslashes(EscapeChar(c, true))
  }

  /** A text in which every escape is the letter that follows the backslash. */
  function DropBackslashes(s: string): (r: string)
    ensures s != "" && s[0] != '\\' ==> r != "" && r[0] == s[0]
    ensures |s| >= 2 && s[0] == '\\' ==> r != "" && r[0] == s[1]
    decreases |s|
  {
    if s == "" then ""
    else if s[0] == '\\' && |s| > 1 then [s[1]] + DropBackslashes(s[2..])
    else [s[0]] + DropBackslashes(s[1..])
  }

  function ReadBackAll(s: string): string {
    if s == "" then "" else ReadBack(s[0]) + ReadBackAll(s[1..])
  }

  /** A text is read back as itself when all of it is plain, and only then. */
  lemma {:induction false} ReadBackSame(s: string)
    ensures ReadBackAll(s) == s <==> AllPlain(s)
  {
    if s != "" {
      ReadBackSame(s[1..]);
      var first, rest := ReadBack(s[0]), ReadBackAll(s[1..]);
      assert s == [s[0]] + s[1..];
      assert ReadBackAll(s)[0] == first[0];
      if IsPlain(s[0]) {
        assert (first + rest)[1..] == rest;
        assert AllPlain(s) <==> AllPlain(s[1..]) by {
          assert forall i | 0 <= i < |s| :: s[i] == if i == 0 then s[0] else s[1..][i - 1];
        }
      }
    }
  }

  lemma ReadsPair(quote: char, c: char, rest: string)
    requires IsQuote(quote) && ParseString(quote, rest).Ok?
    ensures var r := ParseString(quote, rest);
            ParseString(quote, ['\\', c] + rest) == Ok([Escaped(c)] + r.value, r.rest)
  {
    var s := ['\\', c] + rest;
    assert s[2..] == rest;
  }

  lemma ReadsOne(quote: char, c: char, rest: string)
    requires IsQuote(quote) && c != quote && c != '\\' && ParseString(quote, rest).Ok?
    ensures var r := ParseString(quote, rest); ParseString(quote, [c] + rest) == Ok([c] + r.value, r.rest)
  {
    var s := [c] + rest;
    assert s[1..] == rest;
  }

  /** Text without quotes or backslashes stands for itself. */
  lemma {:induction false} ReadsRun(t: string, rest: string)
    requires forall i | 0 <= i < |t| :: t[i] != '"' && t[i] != '\\'
    requires ParseString('"', rest).Ok?
    ensures var r := ParseString('"', rest); ParseString('"', t + rest) == Ok(t + r.value, r.rest)
  {
    if t == "" {
      assert t + rest == rest;
      assert t + ParseString('"', rest).value == ParseString('"', rest).value;
    } else {
      var r := ParseString('"', rest);
      ReadsRun(t[1..], rest);
      ReadsOne('"', t[0], t[1..] + rest);
      assert t + rest == [t[0]] + (t[1..] + rest);
      assert t + r.value == [t[0]] + (t[1..] + r.value);
    }
  }

  lemma DropsOne(c: char, rest: string)
    requires c != '\\'
    ensures DropBackslashes([c] + rest) == [c] + DropBackslashes(rest)
  {
    assert ([c] + rest)[1..] == rest;
  }

  lemma {:induction false} DropsRun(t: string, rest: string)
    requires forall i | 0 <= i < |t| :: t[i] != '\\'
    ensures DropBackslashes(t + rest) == t + DropBackslashes(rest)
  {
    if t == "" {
      assert t + rest == rest;
      assert t + DropBackslashes(rest) == DropBackslashes(rest);
    } else {
      DropsRun(t[1..], rest);
      DropsOne(t[0], t[1..] + rest);
      assert t == [t[0]] + t[1..];
      Regroup([t[0]], t[1..], rest);
      Regroup([t[0]], t[1..], DropBackslashes(rest));
    }
  }

  function Hex(n: nat): (t: string)
    requires n < 0x10000
    ensures |t| == 4 && forall i | 0 <= i < 4 :: t[i] != '"' && t[i] != '\\'
    ensures UnicodeEscape(n) == ['\\', 'u'] + t
  {
    [HexDigit(n / 0x1000), HexDigit(n / 0x100 % 0x10), HexDigit(n / 0x10 % 0x10), HexDigit(n % 0x10)]
  }

  lemma DropsUnicode(n: nat, rest: string)
    requires n < 0x10000
    ensures DropBackslashes(UnicodeEscape(n) + rest) == ['u'] + (Hex(n) + DropBackslashes(rest))
  {
    var s := UnicodeEscape(n) + rest;
    DropsRun(Hex(n), rest);
    assert s[2..] == Hex(n) + rest;
  }

  lemma ReadsUnicode(n: nat, rest: string)
    requires n < 0x10000 && ParseString('"', rest).Ok?
    ensures var r := ParseString('"', rest);
            ParseString('"', UnicodeEscape(n) + rest) == Ok(['u'] + (Hex(n) + r.value), r.rest)
  {
    ReadsRun(Hex(n), rest);
    ReadsPair('"', 'u', Hex(n) + rest);
    Regroup(['\\', 'u'], Hex(n), rest);
    Regroup(['u'], Hex(n), ParseString('"', rest).value);
  }

  lemma ReadsUnicodeAlone(n: nat, rest: string)
    requires n < 0x10000 && ParseString('"', rest).Ok?
    ensures var e, r := UnicodeEscape(n), ParseString('"', rest);
            ParseString('"', e + rest) == Ok(DropBackslashes(e) + r.value, r.rest)
  {
    var e, r := UnicodeEscape(n), ParseString('"', rest);
    ReadsUnicode(n, rest);
    DropsUnicode(n, "");
    assert e + "" == e && Hex(n) + "" == Hex(n);
    Regroup(['u'], Hex(n), r.value);
  }

  lemma ReadsSurrogates(high: nat, low: nat, rest: string)
    requires high < 0x10000 && low < 0x10000 && ParseString('"', rest).Ok?
    ensures var e, r := UnicodeEscape(high) + UnicodeEscape(low), ParseString('"', rest);
            ParseString('"', e + rest) == Ok(DropBackslashes(e) + r.value, r.rest)
  {
    var h, l, r := UnicodeEscape(high), UnicodeEscape(low), ParseString('"', rest);
    var tail := DropBackslashes(l);
    ReadsUnicodeAlone(low, rest);
    ReadsUnicode(high, l + rest);
    DropsUnicode(high, l);
    Regroup(h, l, rest);
    Regroup(['u'], Hex(high) + tail, r.value);
    Regroup(Hex(high), tail, r.value);
  }

  lemma ReadsSimple(letter: char, c: char, rest: string)
    requires ParseString('"', rest).Ok? && EscapeChar(c, true) == ['\\', letter]
    requires IsPlain(c) ==> Escaped(letter) == c
    requires !IsPlain(c) ==> Escaped(letter) == letter
    ensures var r := ParseString('"', rest);
            ParseString('"', EscapeChar(c, true) + rest) == Ok(ReadBack(c) + r.value, r.rest)
  {
    ReadsPair('"', letter, rest);
    assert ['\\', letter][2..] == "";
    var e := EscapeChar(c, true);
    assert DropBackslashes(e) == [letter] + DropBackslashes(e[2..]);
    assert ReadBack(c) == [Escaped(letter)];
  }

  lemma ReadsEscapedChar(c: char, rest: string)
    requires ParseString('"', rest).Ok?
    ensures var r := ParseString('"', rest);
            ParseString('"', EscapeChar(c, true) + rest) == Ok(ReadBack(c) + r.value, r.rest)
  {
    var n, e := c as int, EscapeChar(c, true);
    if c in ['"', '\\', '\n', '\r', '\t'] || n == 0x08 || n == 0x0C {
      ReadsSimple(e[1], c, rest);
    } else if n < 0x20 || 0x7F <= n < 0x10000 {
      ReadsUnicodeAlone(n, rest);
    } else if n < 0x7F {
      ReadsOne('"', c, rest);
    } else {
      ReadsSurrogates(0xD800 + (n - 0x10000) / 0x400, 0xDC00 + (n - 0x10000) % 0x400, rest);
    }
  }

  lemma {:induction false} ReadsQuoted(s: string, rest: string)
    ensures ParseString('"', Escape(s, true) + (['"'] + rest)) == Ok(ReadBackAll(s), rest)
  {
    var end := ['"'] + rest;
    if s == "" {
      assert Escape(s, true) + end == end && end[1..] == rest;
    } else {
      var e, after := EscapeChar(s[0], true), Escape(s[1..], true) + end;
      ReadsQuoted(s[1..], rest);
      ReadsEscapedChar(s[0], after);
      Regroup(e, Escape(s[1..], true), end);
    }
  }

  // ── Keys and chains ───────────────────────────────────────────────────────

  /** Names that are identifiers, and the literals the parser makes. */
  ghost predicate IsKey(key: Key) {
    if key.Name? then IsIdentifier(key.name) else WritableLiteral(key.literal)
  }

  function ReadNumber(spelled: string): Literal {
    if spelled == "null" then Literal.Null else NumberLiteral(spelled)
  }

  /** What the model takes from the number formatting it does not look into: a
      number is dumped as a numeral of its value, and one too large for a float,
      which is null, as that. */
  ghost predicate SpellsNumbers(lib: Library) {
    forall s | IsDecimalSpelling(s) ::
      var t := lib.spelled(s);
      (t == "null" || IsNumeral(t)) && LiteralValue(ReadNumber(t), lib) == lib.decimal(s)
  }

  predicate IsPlainKey(key: Key) {
    key.Bracketed? && key.literal.Text? ==> AllPlain(key.literal.s)
  }

  /** A number written as it is dumped, as the source's trees hold values. */
  predicate IsDumpedKey(key: Key, lib: Library) {
    key.Bracketed? && key.literal.Decimal? ==> lib.spelled(key.literal.spelling) == key.literal.spelling
  }

  function LiteralReadBack(v: Literal, lib: Library): Literal {
    match v
    case Text(s) => Text(ReadBackAll(s))
    case Decimal(spelling) => ReadNumber(lib.spelled(spelling))
    case _ => v
  }

  function KeyReadBack(key: Key, lib: Library): Key {
    if key.Name? then key else Bracketed(LiteralReadBack(key.literal, lib))
  }

  function KeysReadBack(keys: seq<Key>, lib: Library): (r: seq<Key>)
    ensures |r| == |keys|
    ensures forall i | 0 <= i < |keys| :: r[i] == KeyReadBack(keys[i], lib)
  {
    if keys == [] then [] else [KeyReadBack(keys[0], lib)] + KeysReadBack(keys[1..], lib)
  }

  /** Links of the same kinds with the same keys. */
  ghost predicate SameLinks(a: seq<Key>, b: seq<Key>, lib: Library) {
    |a| == |b| && forall i | 0 <= i < |a| :: a[i].Name? == b[i].Name? && KeyValue(a[i], lib) == KeyValue(b[i], lib)
  }

  predicate AllPlainKeys(keys: seq<Key>) { forall i | 0 <= i < |keys| :: IsPlainKey(keys[i]) }

  predicate AllDumpedKeys(keys: seq<Key>, lib: Library) { forall i | 0 <= i < |keys| :: IsDumpedKey(keys[i], lib) }

  lemma KeyMeansTheSame(key: Key, lib: Library)
    requires IsKey(key) && SpellsNumbers(lib)
    ensures KeyReadBack(key, lib).Name? == key.Name?
    ensures KeyValue(KeyReadBack(key, lib), lib) == KeyValue(key, lib) <==> IsPlainKey(key)
  {
    if key.Bracketed? && key.literal.Text? {
      ReadBackSame(key.literal.s);
    }
  }

  lemma KeysMeanTheSame(keys: seq<Key>, lib: Library)
    requires SpellsNumbers(lib) && forall i | 0 <= i < |keys| :: IsKey(keys[i])
    ensures SameLinks(KeysReadBack(keys, lib), keys, lib) <==> AllPlainKeys(keys)
  {
    forall i | 0 <= i < |keys|
      ensures KeyReadBack(keys[i], lib).Name? == keys[i].Name?
      ensures KeyValue(KeyReadBack(keys[i], lib), lib) == KeyValue(keys[i], lib) <==> IsPlainKey(keys[i])
    {
      KeyMeansTheSame(keys[i], lib);
    }
  }

  lemma KeyIsTheSame(key: Key, lib: Library)
    requires IsKey(key) && SpellsNumbers(lib)
    ensures KeyReadBack(key, lib) == key <==> IsPlainKey(key) && IsDumpedKey(key, lib)
  {
    if key.Bracketed? && key.literal.Text? {
      ReadBackSame(key.literal.s);
    }
  }

  lemma {:induction false} KeysAreTheSame(keys: seq<Key>, lib: Library)
    requires SpellsNumbers(lib) && forall i | 0 <= i < |keys| :: IsKey(keys[i])
    ensures KeysReadBack(keys, lib) == keys <==> AllPlainKeys(keys) && AllDumpedKeys(keys, lib)
  {
    forall i | 0 <= i < |keys|
      ensures KeysReadBack(keys, lib)[i] == keys[i] <==> IsPlainKey(keys[i]) && IsDumpedKey(keys[i], lib)
    {
      KeyIsTheSame(keys[i], lib);
    }
    if KeysReadBack(keys, lib) != keys {
      var i :| 0 <= i < |keys| && KeysReadBack(keys, lib)[i] != keys[i];
    }
  }

  /** The text of links, in front of `rest`. */
  function KeysText(keys: seq<Key>, lib: Library, rest: string): string
    decreases |keys|
  {
    if keys == [] then rest
    else if keys[0].Name? then "." + (keys[0].name + KeysText(keys[1..], lib, rest))
    else "[" + (Dumped(keys[0].literal, lib) + ("]" + KeysText(keys[1..], lib, rest)))
  }

  lemma {:induction false} ChainFront(base: Node, keys: seq<Key>)
    requires keys != []
    ensures Chain(base, keys) == Chain(Linked(base, keys[0]), keys[1..])
    decreases |keys|
  {
    var n := |keys| - 1;
    if n == 0 {
      assert keys[1..] == [] && keys[..0] == [];
    } else {
      ChainFront(base, keys[..n]);
      assert keys[..n][1..] == keys[1..][..n - 1];
    }
  }

  lemma LinkText(base: Node, key: Key, lib: Library, rest: string)
    ensures PathOf(Linked(base, key), lib) + rest ==
            PathOf(base, lib) + (if key.Name? then "." + (key.name + rest) else "[" + (Dumped(key.literal, lib) + ("]" + rest)))
  {
    var obj := PathOf(base, lib);
    if key.Bracketed? {
      var d := Dumped(key.literal, lib);
      Regroup(obj + "[" + d, "]", rest);
      Regroup(obj + "[", d, "]" + rest);
      Regroup(obj, "[", d + ("]" + rest));
    } else {
      Regroup(obj + ".", key.name, rest);
      Regroup(obj, ".", key.name + rest);
    }
  }

  lemma {:induction false} PathIsText(base: Node, keys: seq<Key>, lib: Library)
    ensures PathOf(Chain(base, keys), lib) == PathOf(base, lib) + KeysText(keys, lib, "")
    decreases |keys|
  {
    if keys != [] {
      ChainFront(base, keys);
      PathIsText(Linked(base, keys[0]), keys[1..], lib);
      LinkText(base, keys[0], lib, KeysText(keys[1..], lib, ""));
    }
  }

  // ── What the parser makes of it ───────────────────────────────────────────

  predicate IsBoundary(s: string) { s == "" || !IsIdentifierPart(s[0]) }

  lemma NameBeginsNoPrefix(name: string, s: string)
    requires IsIdentifier(name) && name != "not" && IsBoundary(s)
    ensures var t := name + s; !IsPrefix(t[0]) && !OperatorHere("not", t) && SkipSpace(t) == t
  {
    var t := name + s;
    HeadOf("not", t);
    assert forall i | 0 <= i < |t| :: t[i] == if i < |name| then name[i] else s[i - |name|];
    if |name| == 3 {
      assert t[..3] == name;
    }
  }

  /** A form that no operator follows is an expression. */
  lemma {:induction false} LiftsTo(level: nat, s: string, node: Node, rest: string)
    requires level <= LEVELS && ParseUnary(s) == Ok(node, rest) && Stops(1, rest)
    ensures ParseBinary(level, s) == Ok(node, rest)
    decreases LEVELS - level
  {
    if level < LEVELS {
      LiftsTo(level + 1, s, node, rest);
      assert SkipSpace(rest) == rest;
    }
  }

  lemma Lifts(s: string, node: Node, rest: string)
    requires SkipSpace(s) == s && s != "" && !IsPrefix(s[0]) && !OperatorHere("not", s)
    requires ParsePostfix(s) == Ok(node, rest) && Stops(0, rest)
    ensures ParseExpression(s) == Ok(node, rest)
  {
    LiftsTo(0, s, node, rest);
    assert SkipSpace(rest) == rest;
  }

  lemma ReadsKeyText(s: string, end: string)
    ensures ParsePrimary(Quoted(s, true) + end) == Ok(Lit(Text(ReadBackAll(s))), end)
  {
    var t, escaped := Quoted(s, true) + end, Escape(s, true);
    ReadsQuoted(s, end);
    Regroup(['"'] + escaped, ['"'], end);
    Regroup(['"'], escaped, ['"'] + end);
    assert t == ['"'] + (escaped + (['"'] + end));
    assert t[1..] == escaped + (['"'] + end) && t[0] == '"';
    assert SkipSpace(t) == t;
  }

  lemma ReadsSpelled(t: string, end: string)
    requires (t == "null" || IsNumeral(t)) && Starts(end, ']')
    ensures ParsePrimary(t + end) == Ok(Lit(ReadNumber(t)), end)
  {
    if t == "null" {
      ReadsName("null", end);
    } else {
      NumeralStarts(t);
      ReadsNumeral(t, end);
    }
  }

  lemma SpelledBeginsNoPrefix(t: string, end: string)
    requires (t == "null" || IsNumeral(t)) && Starts(end, ']')
    ensures var u := t + end; u != "" && !IsPrefix(u[0]) && !OperatorHere("not", u) && SkipSpace(u) == u
  {
    if t == "null" {
      NameBeginsNoPrefix("null", end);
    } else {
      NumeralStarts(t);
      HeadOf("not", t + end);
      assert (t + end)[0] == t[0];
    }
  }

  /** A literal key is read up to its bracket. */
  lemma ReadsKeyLiteral(v: Literal, rest: string, lib: Library)
    requires IsKey(Bracketed(v)) && SpellsNumbers(lib)
    ensures ParsePrimary(Dumped(v, lib) + ("]" + rest)) == Ok(Lit(LiteralReadBack(v, lib)), "]" + rest)
  {
    var end := "]" + rest;
    match v
    case Null => ReadsName("null", end);
    case Bool(true) => ReadsName("true", end);
    case Bool(false) => ReadsName("false", end);
    case Integer(n) =>
      DigitsAreNumeral(Digits(n));
      ReadsNumeral(Digits(n), end);
    case Decimal(spelling) => ReadsSpelled(lib.spelled(spelling), end);
    case Text(s) => ReadsKeyText(s, end);
  }

  lemma LiteralBeginsNoPrefix(v: Literal, rest: string, lib: Library)
    requires IsKey(Bracketed(v)) && SpellsNumbers(lib)
    ensures var t := Dumped(v, lib) + ("]" + rest);
            t != "" && !IsPrefix(t[0]) && !OperatorHere("not", t) && SkipSpace(t) == t
  {
    var d := Dumped(v, lib);
    var t := d + ("]" + rest);
    match v
    case Null => NameBeginsNoPrefix("null", "]" + rest);
    case Bool(b) => NameBeginsNoPrefix(if b then "true" else "false", "]" + rest);
    case Integer(n) =>
      HeadOf("not", t);
      assert t[0] == Digits(n)[0];
    case Decimal(spelling) => SpelledBeginsNoPrefix(d, "]" + rest);
    case Text(s) =>
      HeadOf("not", t);
      assert t[0] == '"';
  }

  lemma ReadsKey(v: Literal, rest: string, lib: Library)
    requires IsKey(Bracketed(v)) && SpellsNumbers(lib)
    ensures ParseExpression(Dumped(v, lib) + ("]" + rest)) == Ok(Lit(LiteralReadBack(v, lib)), "]" + rest)
  {
    var t, end := Dumped(v, lib) + ("]" + rest), "]" + rest;
    var node := Lit(LiteralReadBack(v, lib));
    ReadsKeyLiteral(v, rest, lib);
    LiteralBeginsNoPrefix(v, rest, lib);
    PunctuationStops(']', rest);
    assert [']'] + rest == end;
    PostfixStops(node, end);
    Lifts(t, node, end);
  }

  lemma KeysBegin(keys: seq<Key>, lib: Library)
    ensures var t := KeysText(keys, lib, ""); IsBoundary(t) && SkipSpace(t) == t && (keys != [] ==> PostfixHere(t))
  {
  }

  lemma {:induction false} ContinuesKeys(node: Node, keys: seq<Key>, lib: Library)
    requires SpellsNumbers(lib) && forall i | 0 <= i < |keys| :: IsKey(keys[i])
    ensures ContinuePostfix(node, KeysText(keys, lib, "")) == Ok(Chain(node, KeysReadBack(keys, lib)), "")
    decreases |keys|
  {
    if keys == [] {
      EndStops();
      PostfixStops(node, "");
    } else {
      var key, rest := keys[0], KeysText(keys[1..], lib, "");
      var read := Linked(node, KeyReadBack(key, lib));
      KeysBegin(keys, lib);
      KeysBegin(keys[1..], lib);
      OneKey(node, key, rest, lib);
      ContinuesKeys(read, keys[1..], lib);
      ChainFront(node, KeysReadBack(keys, lib));
    }
  }

  lemma OneKey(node: Node, key: Key, rest: string, lib: Library)
    requires IsKey(key) && SpellsNumbers(lib) && IsBoundary(rest)
    ensures var t := if key.Name? then "." + (key.name + rest) else "[" + (Dumped(key.literal, lib) + ("]" + rest));
            ParseOnePostfix(node, t) == Ok(Linked(node, KeyReadBack(key, lib)), rest)
  {
    if key.Name? {
      ReadsIdentifier(key.name, rest);
      assert ("." + (key.name + rest))[1..] == key.name + rest;
    } else {
      var inner := Dumped(key.literal, lib) + ("]" + rest);
      ReadsKey(key.literal, rest, lib);
      assert ("[" + inner)[1..] == inner && ("]" + rest)[1..] == rest && SkipSpace("]" + rest) == "]" + rest;
    }
  }

  lemma ChainReads(root: string, keys: seq<Key>, lib: Library)
    requires IsIdentifier(root) && !IsReserved(root) && SpellsNumbers(lib)
    requires forall i | 0 <= i < |keys| :: IsKey(keys[i])
    ensures var t := root + KeysText(keys, lib, "");
            ParsePostfix(t) == Ok(Chain(Ident(root), KeysReadBack(keys, lib)), "")
  {
    KeysBegin(keys, lib);
    ReadsName(root, KeysText(keys, lib, ""));
    ContinuesKeys(Ident(root), keys, lib);
  }

  lemma WholeText(t: string, node: Node)
    requires ParseExpression(t) == Ok(node, "") && SkipSpace(t) == t
    ensures Parse(t) == Ok(node, "")
  {
  }

  /** The text a read is reported under is read as the same links, each literal
      as it is read back. */
  lemma PathIsReadAs(root: string, keys: seq<Key>, lib: Library)
    requires IsIdentifier(root) && !IsReserved(root) && SpellsNumbers(lib)
    requires forall i | 0 <= i < |keys| :: IsKey(keys[i])
    ensures Parse(PathOf(Chain(Ident(root), keys), lib)) == Ok(Chain(Ident(root), KeysReadBack(keys, lib)), "")
  {
    var rest := KeysText(keys, lib, "");
    var read := Chain(Ident(root), KeysReadBack(keys, lib));
    PathIsText(Ident(root), keys, lib);
    KeysBegin(keys, lib);
    ChainReads(root, keys, lib);
    NameBeginsNoPrefix(root, rest);
    EndStops();
    Lifts(root + rest, read, "");
    WholeText(root + rest, read);
  }

  function LastLink(n: Node): Key {
    match n
    case Index(_, Lit(v)) => Bracketed(v)
    case Member(_, name) => Name(name)
    case _ => Name("")
  }

  function LinksOf(n: Node, count: nat): seq<Key> {
    if count == 0 || !IsRead(n) then [] else LinksOf(n.target, count - 1) + [LastLink(n)]
  }

  /** A chain tells its links. */
  lemma {:induction false} LinksOfChain(base: Node, keys: seq<Key>)
    ensures LinksOf(Chain(base, keys), |keys|) == keys
    decreases |keys|
  {
    if keys != [] {
      var n := |keys| - 1;
      LinksOfChain(base, keys[..n]);
      assert keys[..n] + [keys[n]] == keys;
      assert LastLink(Linked(Chain(base, keys[..n]), keys[n])) == keys[n];
    }
  }

  /** The text parses, to the end, to a chain of the same links from the name. */
  ghost predicate ParsesTo(text: string, root: string, keys: seq<Key>, lib: Library) {
    exists links :: SameLinks(links, keys, lib) && Parse(text) == Ok(Chain(Ident(root), links), "")
  }

  lemma ParsesToExactly(text: string, root: string, back: seq<Key>, keys: seq<Key>, lib: Library)
    requires |back| == |keys| && Parse(text) == Ok(Chain(Ident(root), back), "")
    ensures ParsesTo(text, root, keys, lib) <==> SameLinks(back, keys, lib)
  {
    if ParsesTo(text, root, keys, lib) {
      var links :| SameLinks(links, keys, lib) && Parse(text) == Ok(Chain(Ident(root), links), "");
      LinksOfChain(Ident(root), links);
      LinksOfChain(Ident(root), back);
    }
  }

  /** A reported path parses back to the links it names exactly when every string
      key in it is printable ASCII, newlines, tabs and returns; to the very tree
      when its decimal numbers were spelled as they are dumped, besides. */
  lemma PathParsesBack(root: string, keys: seq<Key>, lib: Library)
    requires IsIdentifier(root) && !IsReserved(root) && SpellsNumbers(lib)
    requires forall i | 0 <= i < |keys| :: IsKey(keys[i])
    ensures var read := Chain(Ident(root), keys);
            && (ParsesTo(PathOf(read, lib), root, keys, lib) <==> AllPlainKeys(keys))
            && (Parse(PathOf(read, lib)) == Ok(read, "") <==> AllPlainKeys(keys) && AllDumpedKeys(keys, lib))
  {
    PathIsReadAs(root, keys, lib);
    KeysMeanTheSame(keys, lib);
    KeysAreTheSame(keys, lib);
    ParsesToExactly(PathOf(Chain(Ident(root), keys), lib), root, KeysReadBack(keys, lib), keys, lib);
    LinksOfChain(Ident(root), keys);
    LinksOfChain(Ident(root), KeysReadBack(keys, lib));
  }

  /** Evaluating a chain of plain names and keys reports either nothing, where
      all of it is there, or one text that parses back to the first link of it
      that is not. */
  lemma ReportsNameTheFirstMissing(root: string, keys: seq<Key>, scope: Scope, lib: Library)
    requires IsIdentifier(root) && !IsReserved(root) && keys != [] && SpellsNumbers(lib)
    requires AllPlainKeys(keys) && forall i | 0 <= i < |keys| :: IsKey(keys[i])
    requires root in scope || root !in lib.builtins
    ensures var v := if root in scope then scope[root] else V.Null;
            var reports := Evaluate(Chain(Ident(root), keys), scope, lib).reports;
            var w := Walk(v, keys, lib);
            if w.There? then reports == []
            else |reports| == 1 && ParsesTo(reports[0], root, keys[..w.at + 1], lib)
  {
    RootReports(root, keys, scope, lib);
    var w := Walk(if root in scope then scope[root] else V.Null, keys, lib);
    if w.Gone? {
      BeginningParsesBack(root, keys, w.at + 1, lib);
    }
  }

  lemma BeginningParsesBack(root: string, keys: seq<Key>, n: nat, lib: Library)
    requires IsIdentifier(root) && !IsReserved(root) && SpellsNumbers(lib) && n <= |keys|
    requires AllPlainKeys(keys) && forall i | 0 <= i < |keys| :: IsKey(keys[i])
    ensures ParsesTo(PathOf(Chain(Ident(root), keys[..n]), lib), root, keys[..n], lib)
  {
    PathParsesBack(root, keys[..n], lib);
  }

  /** Nothing, or the one read of a chain that a walk stopped at. */
  function StopsAt(base: Node, keys: seq<Key>, w: Walked, lib: Library): seq<string>
    requires w.Gone? ==> w.at < |keys|
  {
    if w.There? then [] else [PathOf(Chain(base, keys[..w.at + 1]), lib)]
  }

  lemma RootReports(root: string, keys: seq<Key>, scope: Scope, lib: Library)
    requires keys != [] && (root in scope || root !in lib.builtins)
    ensures var w := Walk(if root in scope then scope[root] else V.Null, keys, lib);
            Evaluate(Chain(Ident(root), keys), scope, lib).reports == StopsAt(Ident(root), keys, w, lib)
  {
    RootValue(root, scope, lib);
    MissingReadsAreNamedOnce(Ident(root), keys, scope, lib);
    ReportsOf(Ident(root), keys, Evaluate(Ident(root), scope, lib), lib);
  }

  lemma RootValue(root: string, scope: Scope, lib: Library)
    requires root in scope || root !in lib.builtins
    ensures Evaluate(Ident(root), scope, lib) == Done(if root in scope then scope[root] else V.Null, [])
  {
  }

  lemma ReportsOf(base: Node, keys: seq<Key>, o: Outcome, lib: Library)
    requires o.Done? && o.reports == []
    ensures var w := Walk(o.value, keys, lib);
            ValueOf(ByWalk(base, keys, o, lib)).reports == StopsAt(base, keys, w, lib)
  {
  }

  /** A key with a control character in it is not read back. */
  lemma ControlKeyIsMisread(lib: Library)
    ensures var read := Index(Ident("params"), Lit(Text([0x08 as char]))); Parse(PathOf(read, lib)) != Ok(read, "")
  {
    var keys := [Bracketed(Text([0x08 as char]))];
    assert Chain(Ident("params"), keys) == Index(Ident("params"), Lit(Text([0x08 as char]))) by {
      assert keys[..0] == [];
    }
    assert !IsPlain(keys[0].literal.s[0]);
    var numberless := lib.(spelled := (_: string) => "null", decimal := (_: string) => V.Null);
    PathParsesBack("params", keys, numberless);
  }
}
