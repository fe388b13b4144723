/** Base64 as a browser's `atob` takes it: ASCII white space ignored, the
    standard alphabet, padding optional. */
module Base64 {
  import opened Strings

  // ── The alphabet (table 1 of RFC 4648) ────────────────────────────────────

  predicate IsLetter(c: char) {
    'A' <= c <= 'Z' || 'a' <= c <= 'z' || '0' <= c <= '9' || c == '+' || c == '/'
  }

  function Sextet(c: char): (n: nat)
    requires IsLetter(c)
    ensures n < 64
  {
    if 'A' <= c <= 'Z' then c as int - 'A' as int
    else if 'a' <= c <= 'z' then c as int - 'a' as int + 26
    else if '0' <= c <= '9' then c as int - '0' as int + 52
    else if c == '+' then 62 else 63
  }

  function Letter(n: nat): (c: char)
    requires n < 64
    ensures IsLetter(c) && Sextet(c) == n
  {
    if n < 26 then ('A' as int + n) as char
    else if n < 52 then ('a' as int + n - 26) as char
    else if n < 62 then ('0' as int + n - 52) as char
    else if n == 62 then '+' else '/'
  }

  predicate AllLetters(s: string) { forall i | 0 <= i < |s| :: IsLetter(s[i]) }

  // ── Encoding (section 4 of RFC 4648) ──────────────────────────────────────

  function FourLetters(a: Byte, b: Byte, c: Byte): (s: string)
    ensures |s| == 4 && AllLetters(s)
  {
    [Letter(a / 4), Letter(a % 4 * 16 + b / 16), Letter(b % 16 * 4 + c / 64), Letter(c % 64)]
  }

  lemma GroupAppends(four: string, rest: string)
    requires |four| == 4 && AllLetters(four) && AllLetters(rest)
    ensures AllLetters(four + rest) && |four + rest| % 4 == |rest| % 4
  {
  }

  lemma ThreeFewer(n: nat)
    requires n >= 3
    ensures (n - 3) % 3 == n % 3
  {
  }

  /** Three bytes as four letters; what is left over as two or three. */
  function EncodeBody(b: seq<Byte>): (s: string)
    ensures AllLetters(s) && |s| % 4 != 1
    ensures |s| % 4 == if |b| % 3 == 0 then 0 else |b| % 3 + 1
  {
    if b == [] then ""
    else if |b| == 1 then FourLetters(b[0], 0, 0)[..2]
    else if |b| == 2 then FourLetters(b[0], b[1], 0)[..3]
    else
      var four, rest := FourLetters(b[0], b[1], b[2]), EncodeBody(b[3..]);
      ThreeFewer(|b|);
      GroupAppends(four, rest);
      four + rest
  }

  function PaddingLength(n: nat): (p: nat)
    requires n % 4 != 1
    ensures p <= 2 && (n + p) % 4 == 0
  {
    (4 - n % 4) % 4
  }

  function Padding(body: string): (p: string)
    requires |body| % 4 != 1
    ensures |p| == PaddingLength(|body|) && forall i | 0 <= i < |p| :: p[i] == '='
  {
    seq(PaddingLength(|body|), i => '=')
  }

  function Encode(b: seq<Byte>): string { EncodeBody(b) + Padding(EncodeBody(b)) }

  // ── Decoding ──────────────────────────────────────────────────────────────

  predicate IsIgnored(c: char) { c in "\t\n\r " || c as int == 0x0C }

  /** The text without its ASCII white space. */
  function Squeeze(s: string): string {
    if s == "" then ""
    else if IsIgnored(s[0]) then Squeeze(s[1..])
    else [s[0]] + Squeeze(s[1..])
  }

  /** One or two "=" at the end, taken off. */
  function Unpad(s: string): (r: string)
    ensures |r| <= |s| && s[..|r|] == r
  {
    if |s| >= 2 && s[|s| - 1] == '=' && s[|s| - 2] == '=' then s[..|s| - 2]
    else if |s| >= 1 && s[|s| - 1] == '=' then s[..|s| - 1]
    else s
  }

  /** Padding counts only in a text of whole groups of four. */
  function Unpadded(text: string): string { if |text| % 4 == 0 then Unpad(text) else text }

  function Body(value: string): string {
    Unpadded(Squeeze(value))
  }

  function ThreeBytes(a: nat, b: nat, c: nat, d: nat): (s: seq<Byte>)
    requires a < 64 && b < 64 && c < 64 && d < 64
    ensures |s| == 3
  {
    [a * 4 + b / 16, b % 16 * 16 + c / 4, c % 4 * 64 + d]
  }

  function DecodeLetters(s: string): seq<Byte>
    requires AllLetters(s) && |s| % 4 != 1
  {
    if s == "" then []
    else if |s| == 2 then ThreeBytes(Sextet(s[0]), Sextet(s[1]), 0, 0)[..1]
    else if |s| == 3 then ThreeBytes(Sextet(s[0]), Sextet(s[1]), Sextet(s[2]), 0)[..2]
    else ThreeBytes(Sextet(s[0]), Sextet(s[1]), Sextet(s[2]), Sextet(s[3])) + DecodeLetters(s[4..])
  }

  function Decode(value: string): Option<seq<Byte>> {
    var text := Body(value);
    if |text| % 4 == 1 || !AllLetters(text) then None else Some(DecodeLetters(text))
  }

  // ── The round trip ────────────────────────────────────────────────────────

  lemma SixteenSplits(high: nat, low: nat)
    requires low < 16
    ensures (high * 16 + low) / 16 == high && (high * 16 + low) % 16 == low
  {
  }

  lemma FourSplits(high: nat, low: nat)
    requires low < 4
    ensures (high * 4 + low) / 4 == high && (high * 4 + low) % 4 == low
  {
  }

  lemma SextetsKeep(a: Byte, b: Byte, c: Byte)
    ensures var x, y := a % 4 * 16 + b / 16, b % 16 * 4 + c / 64;
            x < 64 && y < 64 && ThreeBytes(a / 4, x, y, c % 64) == [a, b, c]
  {
    SixteenSplits(a % 4, b / 16);
    FourSplits(b % 16, c / 64);
  }

  lemma SextetsOf(a: Byte, b: Byte, c: Byte)
    ensures var s := FourLetters(a, b, c);
            && Sextet(s[0]) == a / 4 && Sextet(s[1]) == a % 4 * 16 + b / 16
            && Sextet(s[2]) == b % 16 * 4 + c / 64 && Sextet(s[3]) == c % 64
  {
  }

  lemma GroupDecodes(a: Byte, b: Byte, c: Byte)
    ensures var s := FourLetters(a, b, c);
            && ThreeBytes(Sextet(s[0]), Sextet(s[1]), Sextet(s[2]), Sextet(s[3])) == [a, b, c]
            && (c == 0 ==> Sextet(s[3]) == 0 && (b == 0 ==> Sextet(s[2]) == 0))
  {
    SextetsOf(a, b, c);
    SextetsKeep(a, b, c);
  }

  lemma DecodesGroup(four: string, rest: string)
    requires |four| == 4 && AllLetters(four) && AllLetters(rest) && |rest| % 4 != 1
    ensures AllLetters(four + rest) && |four + rest| % 4 != 1
    ensures DecodeLetters(four + rest) ==
            ThreeBytes(Sextet(four[0]), Sextet(four[1]), Sextet(four[2]), Sextet(four[3])) + DecodeLetters(rest)
  {
    var s := four + rest;
    assert s[4..] == rest && s[0] == four[0] && s[1] == four[1] && s[2] == four[2] && s[3] == four[3];
  }

  lemma DecodesOne(a: Byte)
    ensures DecodeLetters(FourLetters(a, 0, 0)[..2]) == [a]
  {
    GroupDecodes(a, 0, 0);
  }

  lemma DecodesTwo(a: Byte, b: Byte)
    ensures DecodeLetters(FourLetters(a, b, 0)[..3]) == [a, b]
  {
    GroupDecodes(a, b, 0);
  }

  lemma DecodesThree(a: Byte, b: Byte, c: Byte, rest: string)
    requires AllLetters(rest) && |rest| % 4 != 1
    ensures var s := FourLetters(a, b, c) + rest;
            AllLetters(s) && |s| % 4 != 1 && DecodeLetters(s) == [a, b, c] + DecodeLetters(rest)
  {
    GroupDecodes(a, b, c);
    DecodesGroup(FourLetters(a, b, c), rest);
  }

  lemma EncodesThree(b: seq<Byte>)
    requires |b| >= 3
    ensures EncodeBody(b) == FourLetters(b[0], b[1], b[2]) + EncodeBody(b[3..])
  {
  }

  lemma DecodesFew(b: seq<Byte>)
    requires |b| < 3
    ensures DecodeLetters(EncodeBody(b)) == b
  {
    if |b| == 1 {
      DecodesOne(b[0]);
    } else if |b| == 2 {
      DecodesTwo(b[0], b[1]);
    }
  }

  lemma {:induction false} DecodesBody(b: seq<Byte>)
    ensures DecodeLetters(EncodeBody(b)) == b
  {
    if |b| < 3 {
      DecodesFew(b);
    } else {
      var rest := EncodeBody(b[3..]);
      EncodesThree(b);
      DecodesThree(b[0], b[1], b[2], rest);
      DecodesBody(b[3..]);
      assert b == [b[0], b[1], b[2]] + b[3..];
    }
  }

  lemma UnpadBody(body: string)
    requires AllLetters(body) && |body| % 4 != 1
    ensures Unpad(body + Padding(body)) == body
    ensures Unpad(body) == body
  {
    var text := body + Padding(body);
    assert forall i | 0 <= i < |body| :: text[i] == body[i];
    assert forall i | |body| <= i < |text| :: text[i] == '=';
    assert text[..|body|] == body;
  }

  lemma BodyUnpadded(body: string, text: string)
    requires AllLetters(body) && |body| % 4 != 1 && (text == body + Padding(body) || text == body)
    ensures Unpadded(text) == body
  {
    UnpadBody(body);
    PaddedLength(body);
  }

  lemma PaddedLength(body: string)
    requires |body| % 4 != 1
    ensures |body + Padding(body)| % 4 == 0
  {
    assert |body + Padding(body)| == |body| + PaddingLength(|body|);
  }

  /** Decoding the encoding of any bytes gives them back, with the padding kept
      or dropped and white space anywhere. */
  lemma DecodeUndoesEncode(b: seq<Byte>, value: string)
    requires Squeeze(value) == Encode(b) || Squeeze(value) == EncodeBody(b)
    ensures Decode(value) == Some(b)
  {
    BodyUnpadded(EncodeBody(b), Squeeze(value));
    DecodesBody(b);
  }

  /** Text whose every character belongs, of a length groups of four can have,
      followed by nothing or by exactly the padding that length calls for. */
  ghost predicate IsBase64(text: string) {
    exists n: nat | n <= |text| ::
      AllLetters(text[..n]) && n % 4 != 1 && (text[n..] == "" || text[n..] == Padding(text[..n]))
  }

  /** What is taken off the end is all of the padding or nothing. */
  lemma UnpaddedOff(text: string)
    requires |Unpadded(text)| % 4 != 1
    ensures var body := Unpadded(text);
            && |body| <= |text| && text[..|body|] == body
            && (text[|body|..] == "" || text[|body|..] == Padding(body))
  {
    var body := Unpadded(text);
    var pad := text[|body|..];
    assert |pad| > 0 ==> pad == Padding(body);
  }

  lemma AcceptedIsBase64(value: string)
    requires Decode(value).Some?
    ensures IsBase64(Squeeze(value))
  {
    UnpaddedOff(Squeeze(value));
  }

  lemma Base64IsAccepted(value: string, n: nat)
    requires n <= |Squeeze(value)|
    requires var text := Squeeze(value);
             AllLetters(text[..n]) && n % 4 != 1 && (text[n..] == "" || text[n..] == Padding(text[..n]))
    ensures Decode(value).Some?
  {
    var text := Squeeze(value);
    assert text == text[..n] + text[n..];
    UnpadBody(text[..n]);
    assert text[n..] == "" ==> text[..n] == text;
  }

  /** Text is taken exactly when, without its white space, it is base64; so it
      is refused for a foreign character, a misplaced or missing "=", or a
      length of one modulo four, and for nothing else. */
  lemma AcceptedExactly(value: string)
    ensures Decode(value).Some? <==> IsBase64(Squeeze(value))
  {
    var text := Squeeze(value);
    if Decode(value).Some? {
      AcceptedIsBase64(value);
    }
    if IsBase64(text) {
      var n: nat :| n <= |text| && AllLetters(text[..n]) && n % 4 != 1 && (text[n..] == "" || text[n..] == Padding(text[..n]));
      Base64IsAccepted(value, n);
    }
  }

  // ── What the letters stand for ────────────────────────────────────────────

  const UPPER := "ABCDEFGHIJKLMNOPQRSTUVWXYZ"
  const LOWER := "abcdefghijklmnopqrstuvwxyz"
  const FIGURES := "0123456789"
  const ALPHABET := UPPER + LOWER + FIGURES + "+/"

  /** Characters that follow each other without a gap. */
  ghost predicate Rises(s: string, first: char, n: nat) {
    |s| == n && forall i | 0 <= i < n :: s[i] as int == first as int + i
  }

  lemma RisesHas(s: string, first: char, n: nat, c: char)
    requires Rises(s, first, n)
    ensures c in s <==> first as int <= c as int < first as int + n
  {
    if first as int <= c as int < first as int + n {
      assert s[c as int - first as int] == c;
    }
  }

  lemma AlphabetRises()
    ensures Rises(UPPER, 'A', 26) && Rises(LOWER, 'a', 26) && Rises(FIGURES, '0', 10)
  {
  }

  lemma LetterIs(n: nat)
    requires n < 64
    ensures |ALPHABET| == 64 && Letter(n) == ALPHABET[n]
  {
    AlphabetRises();
    if n < 26 {
      assert ALPHABET[n] == UPPER[n];
    } else if n < 52 {
      assert ALPHABET[n] == LOWER[n - 26];
    } else if n < 62 {
      assert ALPHABET[n] == FIGURES[n - 52];
    }
  }

  /** A byte, or 0 behind the last. */
  function At(b: seq<Byte>, i: nat): Byte { if i < |b| then b[i] else 0 }

  /** The 24 bits of the `i`th group of three bytes. */
  function Group(b: seq<Byte>, i: nat): nat {
    At(b, 3 * i) * 0x10000 + At(b, 3 * i + 1) * 0x100 + At(b, 3 * i + 2)
  }

  /** The `k`th six of 24 bits. */
  function Six(bits: nat, k: nat): (n: nat)
    requires k < 4
    ensures n < 64
  {
    (if k == 0 then bits / 0x40000 else if k == 1 then bits / 0x1000 else if k == 2 then bits / 0x40 else bits) % 64
  }

  lemma SixesOf(a: Byte, b: Byte, c: Byte)
    ensures var bits := a * 0x10000 + b * 0x100 + c;
            && Six(bits, 0) == a / 4 && Six(bits, 1) == a % 4 * 16 + b / 16
            && Six(bits, 2) == b % 16 * 4 + c / 64 && Six(bits, 3) == c % 64
  {
    FourSplit(a / 4, a % 4 * 16 + b / 16, b % 16 * 4 + c / 64, c % 64);
  }

  /** The letter the alphabet has for six of 24 bits. */
  function TableLetter(bits: nat, k: nat): char
    requires k < 4
  {
    ALPHABET[Six(bits, k)]
  }

  lemma LetterOfSix(a: Byte, b: Byte, c: Byte, k: nat, bits: nat)
    requires k < 4 && bits == a * 0x10000 + b * 0x100 + c
    ensures FourLetters(a, b, c)[k] == Letter(Six(bits, k))
  {
    SixesOf(a, b, c);
  }

  lemma FourLettersSpell(a: Byte, b: Byte, c: Byte, k: nat, bits: nat)
    requires k < 4 && bits == a * 0x10000 + b * 0x100 + c
    ensures FourLetters(a, b, c)[k] == TableLetter(bits, k)
  {
    LetterOfSix(a, b, c, k, bits);
    LetterIs(Six(bits, k));
  }

  lemma FirstLetters(b: seq<Byte>, k: nat)
    requires k < |EncodeBody(b)| && k < 4
    ensures EncodeBody(b)[k] == FourLetters(At(b, 0), At(b, 1), At(b, 2))[k]
  {
    if |b| >= 3 {
      EncodesThree(b);
    }
  }

  lemma FirstGroup(b: seq<Byte>, k: nat)
    requires k < |EncodeBody(b)| && k < 4
    ensures EncodeBody(b)[k] == TableLetter(Group(b, 0), k)
  {
    FirstLetters(b, k);
    FourLettersSpell(At(b, 0), At(b, 1), At(b, 2), k, Group(b, 0));
  }

  lemma BehindFour(b: seq<Byte>)
    requires |EncodeBody(b)| >= 4
    ensures |b| >= 3 && EncodeBody(b)[4..] == EncodeBody(b[3..])
  {
    EncodesThree(b);
  }

  /** Behind `i` groups of letters stands what encodes the bytes behind `i` groups. */
  lemma {:induction false} BehindGroups(b: seq<Byte>, i: nat)
    requires 4 * i <= |EncodeBody(b)|
    ensures 3 * i <= |b| && EncodeBody(b)[4 * i..] == EncodeBody(b[3 * i..])
    decreases i
  {
    if i == 0 {
      assert b[0..] == b;
    } else {
      BehindFour(b);
      BehindGroups(b[3..], i - 1);
      assert b[3..][3 * (i - 1)..] == b[3 * i..];
      assert EncodeBody(b)[4..][4 * (i - 1)..] == EncodeBody(b)[4 * i..];
    }
  }

  lemma GroupBehind(b: seq<Byte>, i: nat)
    requires 3 * i <= |b|
    ensures Group(b[3 * i..], 0) == Group(b, i)
  {
    assert forall j: nat :: At(b[3 * i..], j) == At(b, 3 * i + j);
  }

  lemma {:induction false} EncodedLength(b: seq<Byte>)
    ensures |EncodeBody(b)| == (|b| * 4 + 2) / 3
  {
    if |b| >= 3 {
      EncodesThree(b);
      EncodedLength(b[3..]);
    }
  }

  /** Every letter is the one the alphabet has for its six bits, in groups of
      four letters for 24 bits; what is left over has as many letters as its
      bits need, and zeros for those it lacks. */
  lemma EncodesByTable(b: seq<Byte>, i: nat, k: nat)
    requires k < 4 && 4 * i + k < |EncodeBody(b)|
    ensures |EncodeBody(b)| == (|b| * 4 + 2) / 3
    ensures EncodeBody(b)[4 * i + k] == TableLetter(Group(b, i), k)
  {
    EncodedLength(b);
    BehindGroups(b, i);
    FirstGroup(b[3 * i..], k);
    GroupBehind(b, i);
  }

  // ── What is decoded, exactly ──────────────────────────────────────────────

  /** How much of the last letter's value a text of bytes leaves unused. */
  function Spare(length: nat): (s: nat)
    ensures s > 0
  {
    if length % 3 == 0 then 1 else if length % 3 == 1 then 16 else 4
  }

  /** The `i`th letters agree, but for the unused bits of the last. */
  ghost predicate Agrees(body: string, e: string, spare: nat, i: nat)
    requires |body| == |e| && AllLetters(body) && AllLetters(e) && i < |e| && spare > 0
  {
    if i < |e| - 1 then body[i] == e[i] else Sextet(body[i]) / spare == Sextet(e[i]) / spare
  }

  ghost predicate AllAgree(body: string, e: string, spare: nat) {
    && |body| == |e| && AllLetters(body) && AllLetters(e) && spare > 0
    && forall i | 0 <= i < |e| :: Agrees(body, e, spare, i)
  }

  /** The letters are those of the bytes, but for the unused bits of the last. */
  ghost predicate BodySpells(body: string, b: seq<Byte>) { AllAgree(body, EncodeBody(b), Spare(|b|)) }

  lemma OneSpelled(x: nat, y: nat, a: Byte)
    requires x < 64 && y < 64
    ensures ThreeBytes(x, y, 0, 0)[0] == a <==> x == a / 4 && y / 16 == a % 4
  {
    FourSplits(x, y / 16);
  }

  lemma OneEncoded(a: Byte)
    ensures var e := EncodeBody([a]); |e| == 2 && Sextet(e[0]) == a / 4 && Sextet(e[1]) == a % 4 * 16
  {
    SextetsOf(a, 0, 0);
  }

  lemma SameLetter(c: char, d: char)
    requires IsLetter(c) && IsLetter(d)
    ensures c == d <==> Sextet(c) == Sextet(d)
  {
    assert Letter(Sextet(c)) == c && Letter(Sextet(d)) == d by {
      LetterOf(c);
      LetterOf(d);
    }
  }

  lemma LetterOf(c: char)
    requires IsLetter(c)
    ensures Letter(Sextet(c)) == c
  {
  }

  lemma SpellsOne(body: string, a: Byte)
    requires AllLetters(body) && |body| == 2
    ensures DecodeLetters(body) == [a] <==> BodySpells(body, [a])
  {
    var e := EncodeBody([a]);
    assert Spare(|[a]|) == 16;
    OneSpelled(Sextet(body[0]), Sextet(body[1]), a);
    OneEncoded(a);
    SameLetter(body[0], e[0]);
    assert a % 4 * 16 / 16 == a % 4;
    assert Agrees(body, e, 16, 0) <==> body[0] == e[0];
    assert Agrees(body, e, 16, 1) <==> Sextet(body[1]) / 16 == Sextet(e[1]) / 16;
  }

  lemma TwoSpelled(x: nat, y: nat, z: nat, a: Byte, b: Byte)
    requires x < 64 && y < 64 && z < 64
    ensures ThreeBytes(x, y, z, 0)[..2] == [a, b] <==> x == a / 4 && y == a % 4 * 16 + b / 16 && z / 4 == b % 16
  {
    FourSplits(x, y / 16);
    SixteenSplits(y % 16, z / 4);
    SixteenSplits(a % 4, b / 16);
    assert ThreeBytes(x, y, z, 0)[..2] == [x * 4 + y / 16, y % 16 * 16 + z / 4];
  }

  lemma TwoEncoded(a: Byte, b: Byte)
    ensures var e := EncodeBody([a, b]);
            |e| == 3 && Sextet(e[0]) == a / 4 && Sextet(e[1]) == a % 4 * 16 + b / 16 && Sextet(e[2]) == b % 16 * 4
  {
    SextetsOf(a, b, 0);
  }

  lemma SpellsTwo(body: string, a: Byte, b: Byte)
    requires AllLetters(body) && |body| == 3
    ensures DecodeLetters(body) == [a, b] <==> BodySpells(body, [a, b])
  {
    var e := EncodeBody([a, b]);
    assert Spare(|[a, b]|) == 4;
    TwoSpelled(Sextet(body[0]), Sextet(body[1]), Sextet(body[2]), a, b);
    TwoEncoded(a, b);
    SameLetter(body[0], e[0]);
    SameLetter(body[1], e[1]);
    FourSplits(b % 16, 0);
    assert Agrees(body, e, 4, 0) <==> body[0] == e[0];
    assert Agrees(body, e, 4, 1) <==> body[1] == e[1];
    assert Agrees(body, e, 4, 2) <==> Sextet(body[2]) / 4 == Sextet(e[2]) / 4;
  }

  lemma ThreeSpelled(w: nat, x: nat, y: nat, z: nat, a: Byte, b: Byte, c: Byte)
    requires w < 64 && x < 64 && y < 64 && z < 64
    ensures ThreeBytes(w, x, y, z) == [a, b, c] <==>
            w == a / 4 && x == a % 4 * 16 + b / 16 && y == b % 16 * 4 + c / 64 && z == c % 64
  {
    FourSplits(w, x / 16);
    SixteenSplits(x % 16, y / 4);
    Sixty(y % 4, z);
    SixteenSplits(a % 4, b / 16);
    FourSplits(b % 16, c / 64);
    assert ThreeBytes(w, x, y, z) == [a, b, c] <==> w * 4 + x / 16 == a && x % 16 * 16 + y / 4 == b && y % 4 * 64 + z == c;
  }

  lemma SpellsThree(four: string, a: Byte, b: Byte, c: Byte)
    requires |four| == 4 && AllLetters(four)
    ensures ThreeBytes(Sextet(four[0]), Sextet(four[1]), Sextet(four[2]), Sextet(four[3])) == [a, b, c] <==>
            four == FourLetters(a, b, c)
  {
    var e := FourLetters(a, b, c);
    ThreeSpelled(Sextet(four[0]), Sextet(four[1]), Sextet(four[2]), Sextet(four[3]), a, b, c);
    SextetsOf(a, b, c);
    SameLetter(four[0], e[0]);
    SameLetter(four[1], e[1]);
    SameLetter(four[2], e[2]);
    SameLetter(four[3], e[3]);
    assert four == e <==> four[0] == e[0] && four[1] == e[1] && four[2] == e[2] && four[3] == e[3];
  }

  lemma AgreesBehind(four: string, rest: string, e: string, spare: nat)
    requires |four| == 4 && AllLetters(four) && AllAgree(rest, e, spare)
    ensures AllAgree(four + rest, four + e, spare)
  {
    forall i | 0 <= i < |four + e|
      ensures Agrees(four + rest, four + e, spare, i)
    {
      if i >= 4 {
        assert Agrees(rest, e, spare, i - 4);
      }
    }
  }

  lemma AgreesInFront(four: string, rest: string, f: string, e: string, spare: nat)
    requires |four| == |f| == 4 && AllLetters(four) && AllLetters(rest) && AllLetters(f) && AllLetters(e)
    requires AllAgree(four + rest, f + e, spare) && (e == [] ==> spare == 1)
    ensures four == f && AllAgree(rest, e, spare)
  {
    forall i | 0 <= i < 4
      ensures four[i] == f[i]
    {
      assert Agrees(four + rest, f + e, spare, i);
      SameLetter(four[i], f[i]);
    }
    forall i | 0 <= i < |e|
      ensures Agrees(rest, e, spare, i)
    {
      assert Agrees(four + rest, f + e, spare, i + 4);
    }
  }

  /** A group more in front. */
  lemma SpellsMore(four: string, rest: string, b: seq<Byte>)
    requires |four| == 4 && AllLetters(four) && AllLetters(rest) && |b| >= 3
    ensures BodySpells(four + rest, b) <==> four == FourLetters(b[0], b[1], b[2]) && BodySpells(rest, b[3..])
  {
    EncodesThree(b);
    ThreeFewer(|b|);
    EncodedLength(b[3..]);
    if BodySpells(rest, b[3..]) {
      AgreesBehind(four, rest, EncodeBody(b[3..]), Spare(|b|));
    }
    if BodySpells(four + rest, b) {
      AgreesInFront(four, rest, FourLetters(b[0], b[1], b[2]), EncodeBody(b[3..]), Spare(|b|));
    }
  }

  lemma SpellsFew(body: string, b: seq<Byte>)
    requires AllLetters(body) && |body| < 4 && |body| % 4 != 1
    ensures DecodeLetters(body) == b <==> BodySpells(body, b)
  {
    EncodedLength(b);
    if |body| == 2 && |b| == 1 {
      assert b == [b[0]];
      SpellsOne(body, b[0]);
    } else if |body| == 3 && |b| == 2 {
      assert b == [b[0], b[1]];
      SpellsTwo(body, b[0], b[1]);
    }
  }

  lemma {:induction false} DecodesBodyExactly(body: string, b: seq<Byte>)
    requires AllLetters(body) && |body| % 4 != 1
    ensures DecodeLetters(body) == b <==> BodySpells(body, b)
  {
    if |body| < 4 {
      SpellsFew(body, b);
    } else if |b| < 3 {
      EncodedLength(b);
    } else {
      Cut(body, 4);
      DecodesBodyExactly(body[4..], b[3..]);
      SpellsGroup(body[..4], body[4..], b);
    }
  }

  lemma SpellsGroup(four: string, rest: string, b: seq<Byte>)
    requires |four| == 4 && AllLetters(four) && AllLetters(rest) && |rest| % 4 != 1 && 3 <= |b|
    requires DecodeLetters(rest) == b[3..] <==> BodySpells(rest, b[3..])
    ensures AllLetters(four + rest) && |four + rest| % 4 != 1
    ensures DecodeLetters(four + rest) == b <==> BodySpells(four + rest, b)
  {
    DecodesGroup(four, rest);
    SpellsThree(four, b[0], b[1], b[2]);
    SpellsMore(four, rest, b);
    FrontAndRest(ThreeBytes(Sextet(four[0]), Sextet(four[1]), Sextet(four[2]), Sextet(four[3])), DecodeLetters(rest), b);
  }

  lemma FrontAndRest(three: seq<Byte>, rest: seq<Byte>, b: seq<Byte>)
    requires |three| == 3 && |b| >= 3
    ensures three + rest == b <==> three == [b[0], b[1], b[2]] && rest == b[3..]
  {
    Cut(b, 3);
    assert b[..3] == [b[0], b[1], b[2]];
    if three + rest == b {
      assert (three + rest)[..3] == three && (three + rest)[3..] == rest;
    }
  }

  ghost predicate SpellsUpTo(text: string, n: nat, b: seq<Byte>) {
    && n <= |text| && n % 4 != 1 && BodySpells(text[..n], b)
    && (text[n..] == "" || text[n..] == Padding(text[..n]))
  }

  /** Without its white space, the text is the letters of these bytes, the unused
      bits of the last letter aside, with all of its padding or none. */
  ghost predicate Spells(value: string, b: seq<Byte>) {
    exists n: nat :: SpellsUpTo(Squeeze(value), n, b)
  }

  lemma DecodedIsSpelled(value: string, b: seq<Byte>)
    requires Decode(value) == Some(b)
    ensures Spells(value, b)
  {
    UnpaddedOff(Squeeze(value));
    DecodesBodyExactly(Body(value), b);
    assert SpellsUpTo(Squeeze(value), |Body(value)|, b);
  }

  lemma SpelledIsDecoded(value: string, b: seq<Byte>)
    requires Spells(value, b)
    ensures Decode(value) == Some(b)
  {
    var n: nat :| SpellsUpTo(Squeeze(value), n, b);
    SpelledIsBody(Squeeze(value), n);
    DecodesBodyExactly(Squeeze(value)[..n], b);
  }

  /** Decoding, in both directions: a text comes to exactly the bytes it spells. */
  lemma DecodesExactly(value: string, b: seq<Byte>)
    ensures Decode(value) == Some(b) <==> Spells(value, b)
  {
    if Decode(value) == Some(b) {
      DecodedIsSpelled(value, b);
    }
    if Spells(value, b) {
      SpelledIsDecoded(value, b);
    }
  }

  lemma SpelledIsBody(text: string, n: nat)
    requires n <= |text| && n % 4 != 1 && AllLetters(text[..n]) && (text[n..] == "" || text[n..] == Padding(text[..n]))
    ensures Unpadded(text) == text[..n]
  {
    Cut(text, n);
    BodyUnpadded(text[..n], text);
  }
}
