/** String literals as `json.dumps` writes them, and as section 7 of RFC 8259
    says they are read. */
module Json {
  import opened Strings

  function HexDigit(n: nat): (c: char)
    requires n < 16
  {
    if n < 10 then ('0' as int + n) as char else ('a' as int + n - 10) as char
  }

  function HexValue(c: char): Option<nat> {
    if '0' <= c <= '9' then Some(c as int - '0' as int)
    else if 'a' <= c <= 'f' then Some(c as int - 'a' as int + 10)
    else if 'A' <= c <= 'F' then Some(c as int - 'A' as int + 10)
    else None
  }

  /** "\u" and four hexadecimal digits. */
  function UnicodeEscape(n: nat): (s: string)
    requires n < 0x10000
    ensures |s| == 6
  {
    ['\\', 'u', HexDigit(n / 0x1000), HexDigit(n / 0x100 % 0x10), HexDigit(n / 0x10 % 0x10), HexDigit(n % 0x10)]
  }

  /** One character of a string literal; `ascii` also escapes all that is not
      printable ASCII, beyond the basic plane as a surrogate pair. */
  function EscapeChar(c: char, ascii: bool): (s: string)
    ensures |s| >= 1
  {
    var n := c as int;
    if c == '"' then "\\\""
    else if c == '\\' then "\\\\"
    else if c == '\n' then "\\n"
    else if c == '\r' then "\\r"
    else if c == '\t' then "\\t"
    else if n == 0x08 then "\\b"
    else if n == 0x0C then "\\f"
    else if n < 0x20 then UnicodeEscape(n)
    else if !ascii || n < 0x7F then [c]
    else if n < 0x10000 then UnicodeEscape(n)
    else UnicodeEscape(0xD800 + (n - 0x10000) / 0x400) + UnicodeEscape(0xDC00 + (n - 0x10000) % 0x400)
  }

  function Escape(s: string, ascii: bool): (t: string)
    ensures |t| >= |s|
  {
    if s == "" then "" else EscapeChar(s[0], ascii) + Escape(s[1..], ascii)
  }

  /** A string literal as `json.dumps` writes it. */
  function Quoted(s: string, ascii: bool): string { "\"" + Escape(s, ascii) + "\"" }

  lemma {:induction false} EscapeAppend(s: string, t: string, ascii: bool)
    ensures Escape(s + t, ascii) == Escape(s, ascii) + Escape(t, ascii)
  {
    if s == "" {
      assert s + t == t;
    } else {
      assert (s + t)[1..] == s[1..] + t;
      EscapeAppend(s[1..], t, ascii);
    }
  }

  // ── Reading back ──────────────────────────────────────────────────────────

  function Simple(c: char): Option<char> {
    if c in "\"\\/" then Some(c)
    else if c == 'b' then Some(0x08 as char)
    else if c == 'f' then Some(0x0C as char)
    else if c == 'n' then Some('\n')
    else if c == 'r' then Some('\r')
    else if c == 't' then Some('\t')
    else None
  }

  function FourHex(s: string): Option<nat>
    requires |s| >= 4
  {
    var a, b, c, d := HexValue(s[0]), HexValue(s[1]), HexValue(s[2]), HexValue(s[3]);
    if a.Some? && b.Some? && c.Some? && d.Some?
    then Some(a.value * 0x1000 + b.value * 0x100 + c.value * 0x10 + d.value)
    else None
  }

  /** The body of a string literal up to its closing quote, and what follows. */
  function Unquote(s: string): Option<(string, string)> {
    if s == "" then None
    else if s[0] == '"' then Some(("", s[1..]))
    else if s[0] != '\\' then
      if s[0] as int < 0x20 then None else Then(s[0], Unquote(s[1..]))
    else if |s| >= 2 && s[1] != 'u' then
      (match Simple(s[1])
       case None => None
       case Some(c) => Then(c, Unquote(s[2..])))
    else if |s| < 6 then None
    else
      match FourHex(s[2..])
      case None => None
      case Some(n) =>
        if n < 0xD800 || n >= 0xE000 then Then(n as char, Unquote(s[6..]))
        else if n >= 0xDC00 || |s| < 12 || s[6] != '\\' || s[7] != 'u' then None
        else
          match FourHex(s[8..])
          case None => None
          case Some(low) =>
            if 0xDC00 <= low < 0xE000
            then Then((0x10000 + (n - 0xD800) * 0x400 + (low - 0xDC00)) as char, Unquote(s[12..]))
            else None
  }

  function Then(c: char, r: Option<(string, string)>): Option<(string, string)> {
    if r.None? then None else Some(([c] + r.value.0, r.value.1))
  }

  lemma HexRoundTrip(n: nat)
    requires n < 16
    ensures HexValue(HexDigit(n)) == Some(n)
  {
  }

  lemma FourHexRoundTrip(n: nat, rest: string)
    requires n < 0x10000
    ensures FourHex((UnicodeEscape(n) + rest)[2..]) == Some(n)
  {
    var s := (UnicodeEscape(n) + rest)[2..];
    HexRoundTrip(n / 0x1000);
    HexRoundTrip(n / 0x100 % 0x10);
    HexRoundTrip(n / 0x10 % 0x10);
    HexRoundTrip(n % 0x10);
    assert s[0] == HexDigit(n / 0x1000) && s[1] == HexDigit(n / 0x100 % 0x10);
    assert s[2] == HexDigit(n / 0x10 % 0x10) && s[3] == HexDigit(n % 0x10);
    FourDigits(n);
  }

  lemma FourDigits(n: nat)
    requires n < 0x10000
    ensures n / 0x1000 * 0x1000 + n / 0x100 % 0x10 * 0x100 + n / 0x10 % 0x10 * 0x10 + n % 0x10 == n
  {
    var a := n / 0x10;
    var b := a / 0x10;
    assert n / 0x100 == b;
    assert n / 0x1000 == b / 0x10;
  }

  lemma UnquotesUnicode(n: nat, rest: string)
    requires n < 0xD800 || 0xE000 <= n < 0x10000
    ensures Unquote(UnicodeEscape(n) + rest) == Then(n as char, Unquote(rest))
  {
    var s := UnicodeEscape(n) + rest;
    FourHexRoundTrip(n, rest);
    assert s[6..] == rest && s[0] == '\\' && s[1] == 'u';
  }

  lemma ReadsPair(s: string, high: nat, low: nat)
    requires |s| >= 12 && s[0] == '\\' && s[1] == 'u' && s[6] == '\\' && s[7] == 'u'
    requires FourHex(s[2..]) == Some(high) && FourHex(s[8..]) == Some(low)
    requires 0xD800 <= high < 0xDC00 <= low < 0xE000
    ensures Unquote(s) == Then((0x10000 + (high - 0xD800) * 0x400 + (low - 0xDC00)) as char, Unquote(s[12..]))
  {
  }

  lemma UnquotesPair(n: nat, rest: string)
    requires 0x10000 <= n < 0x110000
    ensures var high, low := 0xD800 + (n - 0x10000) / 0x400, 0xDC00 + (n - 0x10000) % 0x400;
            Unquote(UnicodeEscape(high) + (UnicodeEscape(low) + rest)) == Then(n as char, Unquote(rest))
  {
    var high, low := 0xD800 + (n - 0x10000) / 0x400, 0xDC00 + (n - 0x10000) % 0x400;
    var tail := UnicodeEscape(low) + rest;
    var s := UnicodeEscape(high) + tail;
    FourHexRoundTrip(high, tail);
    FourHexRoundTrip(low, rest);
    assert s[8..] == tail[2..] && s[12..] == rest;
    ReadsPair(s, high, low);
  }

  lemma UnquotesSimple(letter: char, c: char, rest: string)
    requires Simple(letter) == Some(c)
    ensures Unquote(['\\', letter] + rest) == Then(c, Unquote(rest))
  {
    var s := ['\\', letter] + rest;
    assert s[2..] == rest && s[1] != 'u';
  }

  lemma UnquotesPlain(c: char, rest: string)
    requires c != '"' && c != '\\' && c as int >= 0x20
    ensures Unquote([c] + rest) == Then(c, Unquote(rest))
  {
    assert ([c] + rest)[1..] == rest;
  }

  lemma UnquotesWide(n: nat, rest: string)
    requires 0x10000 <= n < 0x110000
    ensures var high, low := 0xD800 + (n - 0x10000) / 0x400, 0xDC00 + (n - 0x10000) % 0x400;
            Unquote(UnicodeEscape(high) + UnicodeEscape(low) + rest) == Then(n as char, Unquote(rest))
  {
    var high, low := UnicodeEscape(0xD800 + (n - 0x10000) / 0x400), UnicodeEscape(0xDC00 + (n - 0x10000) % 0x400);
    assert high + low + rest == high + (low + rest);
    UnquotesPair(n, rest);
  }

  /** What an escape can be of a character. */
  predicate IsEscapeOf(e: string, c: char) {
    var n := c as int;
    || (e == [c] && c != '"' && c != '\\' && n >= 0x20)
    || (|e| == 2 && e[0] == '\\' && Simple(e[1]) == Some(c))
    || ((n < 0xD800 || 0xE000 <= n < 0x10000) && e == UnicodeEscape(n))
    || (0x10000 <= n < 0x110000
        && e == UnicodeEscape(0xD800 + (n - 0x10000) / 0x400) + UnicodeEscape(0xDC00 + (n - 0x10000) % 0x400))
  }

  lemma EscapesAre(c: char, ascii: bool)
    ensures IsEscapeOf(EscapeChar(c, ascii), c)
  {
  }

  lemma UnquotesEscape(e: string, c: char, rest: string)
    requires IsEscapeOf(e, c)
    ensures Unquote(e + rest) == Then(c, Unquote(rest))
  {
    var n := c as int;
    if e == [c] && c != '"' && c != '\\' && n >= 0x20 {
      UnquotesPlain(c, rest);
    } else if |e| == 2 && e[0] == '\\' && Simple(e[1]) == Some(c) {
      UnquotesShort(e, c, rest);
    } else {
      UnquotesLong(e, c, rest);
    }
  }

  lemma UnquotesShort(e: string, c: char, rest: string)
    requires |e| == 2 && e[0] == '\\' && Simple(e[1]) == Some(c)
    ensures Unquote(e + rest) == Then(c, Unquote(rest))
  {
    assert e == ['\\', e[1]];
    UnquotesSimple(e[1], c, rest);
  }

  lemma UnquotesLong(e: string, c: char, rest: string)
    requires var n := c as int;
             || ((n < 0xD800 || 0xE000 <= n < 0x10000) && e == UnicodeEscape(n))
             || (0x10000 <= n < 0x110000
                 && e == UnicodeEscape(0xD800 + (n - 0x10000) / 0x400) + UnicodeEscape(0xDC00 + (n - 0x10000) % 0x400))
    ensures Unquote(e + rest) == Then(c, Unquote(rest))
  {
    var n := c as int;
    if n < 0x10000 {
      UnquotesUnicode(n, rest);
    } else {
      UnquotesWide(n, rest);
    }
  }

  lemma UnquotesFirst(c: char, ascii: bool, escaped: string, end: string)
    ensures Unquote(EscapeChar(c, ascii) + escaped + end) == Then(c, Unquote(escaped + end))
  {
    EscapesAre(c, ascii);
    assert EscapeChar(c, ascii) + escaped + end == EscapeChar(c, ascii) + (escaped + end);
    UnquotesEscape(EscapeChar(c, ascii), c, escaped + end);
  }

  /** Reading a written string literal gives the string back: so no two strings
      are written alike. */
  lemma {:induction false} UnquoteUndoesQuoted(s: string, ascii: bool, rest: string)
    ensures Unquote(Escape(s, ascii) + ("\"" + rest)) == Some((s, rest))
  {
    var end := "\"" + rest;
    if s == "" {
      assert Escape(s, ascii) + end == end;
      assert end[1..] == rest;
    } else {
      UnquoteUndoesQuoted(s[1..], ascii, rest);
      UnquotesFirst(s[0], ascii, Escape(s[1..], ascii), end);
      assert [s[0]] + s[1..] == s;
    }
  }
}
