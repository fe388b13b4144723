/** Splitting and joining text at a separator, and text as UTF-8 bytes. */
module Strings {

  datatype Option<+T> = None | Some(value: T)

  // ── Split and join ────────────────────────────────────────────────────────

  predicate Free(s: string, c: char) { forall i | 0 <= i < |s| :: s[i] != c }

  /** `s.split(c)`: the pieces between separators, empty ones included. */
  function Split(s: string, c: char): (parts: seq<string>)
    ensures parts != []
    ensures forall i | 0 <= i < |parts| :: Free(parts[i], c)
  {
    if s == "" then [""]
    else
      var rest := Split(s[1..], c);
      if s[0] == c then [""] + rest else [[s[0]] + rest[0]] + rest[1..]
  }

  /** `c.join(parts)`. */
  function Join(parts: seq<string>, c: char): string {
    if parts == [] then ""
    else if |parts| == 1 then parts[0]
    else parts[0] + [c] + Join(parts[1..], c)
  }

  lemma {:induction false} SplitFirst(head: string, tail: string, c: char)
    requires Free(head, c)
    ensures Split(head + [c] + tail, c) == [head] + Split(tail, c)
  {
    var s := head + [c] + tail;
    if head == "" {
      assert s[1..] == tail;
    } else {
      assert s[1..] == head[1..] + [c] + tail;
      SplitFirst(head[1..], tail, c);
      assert [head[0]] + head[1..] == head;
    }
  }

  lemma {:induction false} SplitFree(s: string, c: char)
    requires Free(s, c)
    ensures Split(s, c) == [s]
  {
    if s != "" {
      SplitFree(s[1..], c);
      assert [s[0]] + s[1..] == s;
    }
  }

  /** Splitting undoes joining when no part holds the separator. */
  lemma {:induction false} SplitJoin(parts: seq<string>, c: char)
    requires parts != [] && forall i | 0 <= i < |parts| :: Free(parts[i], c)
    ensures Split(Join(parts, c), c) == parts
  {
    if |parts| == 1 {
      SplitFree(parts[0], c);
    } else {
      SplitFirst(parts[0], Join(parts[1..], c), c);
      SplitJoin(parts[1..], c);
      assert [parts[0]] + parts[1..] == parts;
    }
  }

  // ── Decimal digits ────────────────────────────────────────────────────────

  predicate IsDigit(c: char) { '0' <= c <= '9' }

  predicate AllDigits(s: string) { forall i | 0 <= i < |s| :: IsDigit(s[i]) }

  function DigitValue(c: char): (d: nat)
    requires IsDigit(c)
    ensures d < 10
  {
    c as int - '0' as int
  }

  function DecimalValue(digits: string): nat
    requires AllDigits(digits)
  {
    if digits == "" then 0
    else 10 * DecimalValue(digits[..|digits| - 1]) + DigitValue(digits[|digits| - 1])
  }

  /** `str(n)`. */
  function Digits(n: nat): (s: string)
    ensures s != "" && AllDigits(s)
    ensures DecimalValue(s) == n
  {
    var last := ('0' as int + n % 10) as char;
    assert IsDigit(last) && DigitValue(last) == n % 10;
    if n < 10 then [last]
    else
      var s := Digits(n / 10) + [last];
      assert s[..|s| - 1] == Digits(n / 10);
      s
  }

  // ── UTF-8 ─────────────────────────────────────────────────────────────────

  type Byte = n: int | 0 <= n < 0x100

  function Utf8Char(c: char): (b: seq<Byte>)
    ensures 1 <= |b| <= 4
  {
    var n := c as int;
    if n < 0x80 then [n]
    else if n < 0x800 then [0xC0 + n / 0x40, 0x80 + n % 0x40]
    else if n < 0x10000 then [0xE0 + n / 0x1000, 0x80 + n / 0x40 % 0x40, 0x80 + n % 0x40]
    else [0xF0 + n / 0x40000, 0x80 + n / 0x1000 % 0x40, 0x80 + n / 0x40 % 0x40, 0x80 + n % 0x40]
  }

  function Utf8(s: string): (b: seq<Byte>)
    ensures |s| <= |b| <= 4 * |s|
  {
    if s == "" then [] else Utf8Char(s[0]) + Utf8(s[1..])
  }

  function Utf8Length(s: string): nat { |Utf8(s)| }

  predicate IsContinuation(b: Byte) { 0x80 <= b < 0xC0 }

  /** What a byte carries beyond its marker. */
  function Bits(b: Byte, marker: int): int { b as int - marker }

  /** The first character of UTF-8 text and how many bytes it takes: only the
      shortest form of a scalar value is taken, as `decode("utf-8")` does. */
  function FirstChar(b: seq<Byte>): (r: Option<(char, nat)>)
    requires b != []
    ensures r.Some? ==> 1 <= r.value.1 <= |b|
  {
    if b[0] < 0x80 then Some((b[0] as char, 1))
    else if 0xC0 <= b[0] < 0xE0 && |b| > 1 && IsContinuation(b[1]) then
      Scalar(Bits(b[0], 0xC0) * 0x40 + Bits(b[1], 0x80), 0x80, 2)
    else if 0xE0 <= b[0] < 0xF0 && |b| > 2 && IsContinuation(b[1]) && IsContinuation(b[2]) then
      Scalar(Bits(b[0], 0xE0) * 0x1000 + Bits(b[1], 0x80) * 0x40 + Bits(b[2], 0x80), 0x800, 3)
    else if 0xF0 <= b[0] < 0xF8 && |b| > 3 && IsContinuation(b[1]) && IsContinuation(b[2]) && IsContinuation(b[3]) then
      Scalar(Bits(b[0], 0xF0) * 0x40000 + Bits(b[1], 0x80) * 0x1000 + Bits(b[2], 0x80) * 0x40 + Bits(b[3], 0x80), 0x10000, 4)
    else None
  }

  function Scalar(n: nat, least: nat, length: nat): (r: Option<(char, nat)>)
    ensures r.Some? ==> r.value.1 == length
  {
    if n < least || 0xD800 <= n < 0xE000 || n >= 0x110000 then None else Some((n as char, length))
  }

  function DecodeUtf8(b: seq<Byte>): Option<string> {
    if b == [] then Some("")
    else
      match FirstChar(b)
      case None => None
      case Some((c, n)) =>
        match DecodeUtf8(b[n..])
        case None => None
        case Some(rest) => Some([c] + rest)
  }

  lemma Nested(n: nat, m: nat)
    requires m in [0x40, 0x1000]
    ensures n / (m * 0x40) == n / m / 0x40
    ensures n / (m * 0x40) * (m * 0x40) + n / m % 0x40 * m == n / m * m
  {
    var a, q := n / m, n / m / 0x40;
    if m == 0x40 {
      assert q * 0x1000 <= n < q * 0x1000 + 0x1000;
    } else {
      assert q * 0x40000 <= n < q * 0x40000 + 0x40000;
    }
  }

  lemma Sixes(n: nat)
    ensures n / 0x40 * 0x40 + n % 0x40 == n
    ensures n / 0x1000 * 0x1000 + n / 0x40 % 0x40 * 0x40 + n % 0x40 == n
    ensures n / 0x40000 * 0x40000 + n / 0x1000 % 0x40 * 0x1000 + n / 0x40 % 0x40 * 0x40 + n % 0x40 == n
  {
    Nested(n, 0x40);
    Nested(n, 0x1000);
  }

  lemma FirstOfUtf8(c: char, rest: seq<Byte>)
    ensures FirstChar(Utf8Char(c) + rest) == Some((c, |Utf8Char(c)|))
  {
    var n := c as int;
    var b := Utf8Char(c) + rest;
    Sixes(n);
    if n < 0x80 {
      assert b[0] == n;
    } else if n < 0x800 {
      assert b[0] == 0xC0 + n / 0x40 && b[1] == 0x80 + n % 0x40;
    } else if n < 0x10000 {
      assert b[0] == 0xE0 + n / 0x1000 && b[1] == 0x80 + n / 0x40 % 0x40 && b[2] == 0x80 + n % 0x40;
    } else {
      assert b[0] == 0xF0 + n / 0x40000 && b[1] == 0x80 + n / 0x1000 % 0x40;
      assert b[2] == 0x80 + n / 0x40 % 0x40 && b[3] == 0x80 + n % 0x40;
    }
  }

  lemma {:induction false} Utf8RoundTrip(s: string)
    ensures DecodeUtf8(Utf8(s)) == Some(s)
  {
    if s != "" {
      FirstOfUtf8(s[0], Utf8(s[1..]));
      assert Utf8(s)[|Utf8Char(s[0])|..] == Utf8(s[1..]);
      Utf8RoundTrip(s[1..]);
      assert [s[0]] + s[1..] == s;
    }
  }

  lemma Sixty(high: nat, low: nat)
    requires low < 0x40
    ensures (high * 0x40 + low) / 0x40 == high && (high * 0x40 + low) % 0x40 == low
  {
  }

  lemma TwoSplit(a: nat, b: nat)
    requires b < 0x40
    ensures var n := a * 0x40 + b; n / 0x40 == a && n % 0x40 == b
  {
    Sixty(a, b);
  }

  lemma ThreeSplit(a: nat, b: nat, c: nat)
    requires b < 0x40 && c < 0x40
    ensures var n := a * 0x1000 + b * 0x40 + c; n / 0x1000 == a && n / 0x40 % 0x40 == b && n % 0x40 == c
  {
    TwoSplit(a, b);
    Sixty(a * 0x40 + b, c);
    Nested((a * 0x40 + b) * 0x40 + c, 0x40);
  }

  lemma FourSplit(a: nat, b: nat, c: nat, d: nat)
    requires b < 0x40 && c < 0x40 && d < 0x40
    ensures var n := a * 0x40000 + b * 0x1000 + c * 0x40 + d;
            n / 0x40000 == a && n / 0x1000 % 0x40 == b && n / 0x40 % 0x40 == c && n % 0x40 == d
  {
    ThreeSplit(a * 0x40 + b, c, d);
    TwoSplit(a, b);
    Nested(a * 0x40000 + b * 0x1000 + c * 0x40 + d, 0x1000);
  }

  lemma FirstIsUtf8(b: seq<Byte>)
    requires b != [] && FirstChar(b).Some?
    ensures var (c, n) := FirstChar(b).value; Utf8Char(c) == b[..n]
  {
    if b[0] < 0x80 {
    } else if b[0] < 0xE0 {
      TwoSplit(b[0] - 0xC0, b[1] - 0x80);
    } else if b[0] < 0xF0 {
      ThreeSplit(b[0] - 0xE0, b[1] - 0x80, b[2] - 0x80);
    } else {
      FourSplit(b[0] - 0xF0, b[1] - 0x80, b[2] - 0x80, b[3] - 0x80);
    }
  }

  /** The only bytes that read as a text are its UTF-8. */
  lemma {:induction false} OnlyUtf8(b: seq<Byte>)
    requires DecodeUtf8(b).Some?
    ensures Utf8(DecodeUtf8(b).value) == b
  {
    if b != [] {
      var (c, n) := FirstChar(b).value;
      FirstIsUtf8(b);
      OnlyUtf8(b[n..]);
      var rest := DecodeUtf8(b[n..]).value;
      assert ([c] + rest)[1..] == rest;
      Cut(b, n);
    }
  }

  lemma Regroup<T>(a: seq<T>, b: seq<T>, c: seq<T>)
    ensures a + b + c == a + (b + c)
  {
  }

  lemma Cut<T>(s: seq<T>, n: nat)
    requires n <= |s|
    ensures s[..n] + s[n..] == s
  {
  }
}
