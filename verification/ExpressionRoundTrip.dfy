/** Text that lays out a written form, and the parser reading that form's tree. */
module ExpressionRoundTrip {
  import opened Strings
  import opened ExpressionTree
  import opened ExpressionForms
  import opened ExpressionGrammar

  // ── Scanning what was written ─────────────────────────────────────────────

  lemma {:induction false} SkipsGap(gap: string, s: string)
    requires AllSpace(gap)
    ensures SkipSpace(gap + s) == SkipSpace(s)
  {
    if gap == "" {
      assert gap + s == s;
    } else {
      assert (gap + s)[1..] == gap[1..] + s;
      SkipsGap(gap[1..], s);
    }
  }

  /** A token laid out does not go on into what is behind it, and what is behind
      it begins with white space or the text it had to stand before. */
  lemma AfterEnds(st: Style, token: string, rest: string)
    requires IsStyle(st)
    ensures !Merges(token, After(st, token, rest))
    ensures SkipSpace(After(st, token, rest)) == SkipSpace(rest)
    ensures !Starts(rest, '=') ==> !Starts(After(st, token, rest), '=')
  {
    var gap := Gap(st, token, rest);
    SkipsGap(gap, rest);
    if gap == "" {
      assert gap + rest == rest;
    } else {
      assert (gap + rest)[0] == gap[0];
      SpaceEndsTokens(gap[0]);
    }
  }

  /** Every parsing function begins by skipping white space. */
  lemma {:induction false} SpaceFirst(r: nat, s: string)
    requires r <= PRIMARY
    ensures ParseAt(r, s) == ParseAt(r, SkipSpace(s))
    decreases PRIMARY - r
  {
    var t := SkipSpace(s);
    SkipTwice(s);
    if r < PRIMARY && r != UNARY {
      SpaceFirst(r + 1, s);
      if r == POSTFIX {
        assert ParsePrimary(s) == ParsePrimary(t);
      } else {
        assert ParseBinary(r, s) == ParseBinary(r, t);
      }
    } else if r == UNARY {
      assert ParseUnary(s) == ParseUnary(t);
    } else {
      assert ParsePrimary(s) == ParsePrimary(t);
    }
  }

  lemma SkipTwice(s: string)
    ensures SkipSpace(SkipSpace(s)) == SkipSpace(s)
  {
  }

  /** The parsing function of a rank. */
  function ParseAt(r: nat, s: string): Parsed<Node>
    requires r <= PRIMARY
  {
    if r == CONDITIONAL then ParseExpression(s)
    else if r <= 1 + LEVELS then ParseBinary(r - 1, s)
    else if r == POSTFIX then ParsePostfix(s)
    else ParsePrimary(s)
  }

  lemma {:induction false} IdentifierEnds(name: string, s: string)
    requires forall i | 0 <= i < |name| :: IsIdentifierPart(name[i])
    requires s == "" || !IsIdentifierPart(s[0])
    ensures IdentifierLength(name + s) == |name|
  {
    if name == "" {
      assert name + s == s;
    } else {
      assert (name + s)[1..] == name[1..] + s;
      IdentifierEnds(name[1..], s);
    }
  }

  lemma ReadsIdentifier(name: string, s: string)
    requires IsIdentifier(name)
    requires s == "" || !IsIdentifierPart(s[0])
    ensures ParseIdentifier(name + s) == Ok(name, s)
  {
    IdentifierEnds(name, s);
    assert SkipSpace(name + s) == name + s;
    assert (name + s)[..|name|] == name && (name + s)[|name|..] == s;
  }

  lemma {:induction false} ReadsBody(quote: char, body: string, rest: string)
    requires IsQuote(quote) && IsBody(quote, body)
    ensures ParseString(quote, body + ([quote] + rest)) == Ok(Unescaped(body), rest)
    decreases |body|
  {
    var end := [quote] + rest;
    if body == "" {
      assert body + end == end && end[1..] == rest;
    } else if body[0] == '\\' {
      ReadsBody(quote, body[2..], rest);
      assert (body + end)[2..] == body[2..] + end;
    } else {
      ReadsBody(quote, body[1..], rest);
      assert (body + end)[1..] == body[1..] + end;
    }
  }

  /** A sign goes on with a number only right behind its exponent letter. */
  predicate EndsInExponent(text: string, after: bool) {
    if text == "" then after else IsExponentLetter(text[|text| - 1])
  }

  lemma {:induction false} NumberEnds(text: string, after: bool, s: string)
    requires NumberLength(text, after) == |text| && !EndsInExponent(text, after)
    requires s == "" || !IsNumberPart(s[0])
    ensures NumberLength(text + s, after) == |text|
  {
    if text == "" {
      assert text + s == s;
    } else {
      assert (text + s)[1..] == text[1..] + s;
      NumberEnds(text[1..], IsExponentLetter(text[0]), s);
    }
  }

  lemma {:induction false} AfterDigitsIs(s: string)
    ensures var r := AfterDigits(s); s[|s| - |r|..] == r && forall i | 0 <= i < |s| - |r| :: IsDigit(s[i])
  {
    if s != "" && IsDigit(s[0]) {
      AfterDigitsIs(s[1..]);
      var r := AfterDigits(s[1..]);
      assert forall i | 0 < i < |s| - |r| :: s[i] == s[1..][i - 1];
    }
  }

  // What `float` takes is what a numeral is.

  lemma {:induction false} AfterSomeDigits(digits: string, rest: string)
    requires AllDigits(digits) && (rest == "" || !IsDigit(rest[0]))
    ensures AfterDigits(digits + rest) == rest
  {
    if digits == "" {
      assert digits + rest == rest;
    } else {
      assert (digits + rest)[1..] == digits[1..] + rest;
      AfterSomeDigits(digits[1..], rest);
    }
  }

  lemma {:induction false} LengthOfDigits(digits: string, rest: string, after: bool)
    requires AllDigits(digits)
    ensures NumberLength(digits + rest, after) == |digits| + NumberLength(rest, if digits == "" then after else false)
  {
    if digits == "" {
      assert digits + rest == rest;
    } else {
      assert (digits + rest)[1..] == digits[1..] + rest;
      LengthOfDigits(digits[1..], rest, false);
    }
  }

  lemma ExponentIsRead(exponent: string)
    requires IsExponentPart(exponent) && exponent != ""
    ensures NumberLength(exponent, false) == |exponent| && IsExponent(exponent[1..])
    ensures IsDigit(exponent[|exponent| - 1])
  {
    var signed := |exponent| > 1 && IsSign(exponent[1]);
    var digits := if signed then exponent[2..] else exponent[1..];
    LengthOfDigits(digits, "", !signed);
    AfterSomeDigits(digits, "");
    assert digits + "" == digits;
    assert digits[|digits| - 1] == exponent[|exponent| - 1];
    if signed {
      assert exponent[1..][1..] == digits;
    }
  }

  lemma FractionIsRead(fraction: string, rest: string)
    requires IsFraction(fraction) && fraction != ""
    ensures NumberLength(fraction + rest, false) == |fraction| + NumberLength(rest, false)
  {
    assert (fraction + rest)[1..] == fraction[1..] + rest;
    LengthOfDigits(fraction[1..], rest, false);
  }

  /** A numeral is scanned whole. */
  lemma NumeralIsScanned(s: string, whole: string, fraction: string, exponent: string)
    requires IsNumeralOf(s, whole, fraction, exponent)
    ensures NumberLength(s, false) == |s| && !EndsInExponent(s, false) && IsNumberToken(s)
  {
    LengthOfDigits(whole, fraction + exponent, false);
    if fraction != "" {
      FractionIsRead(fraction, exponent);
    } else {
      assert fraction + exponent == exponent;
    }
    NumeralEnds(s, whole, fraction, exponent);
    assert s[0] == if whole != "" then whole[0] else fraction[0];
    assert whole == "" ==> s[1] == fraction[1];
    if exponent != "" {
      ExponentIsRead(exponent);
    }
  }

  lemma NumeralEnds(s: string, whole: string, fraction: string, exponent: string)
    requires IsNumeralOf(s, whole, fraction, exponent)
    ensures s != "" && !IsExponentLetter(s[|s| - 1])
  {
    if exponent != "" {
      ExponentIsRead(exponent);
      assert s[|s| - 1] == exponent[|exponent| - 1];
    } else if fraction != "" {
      assert s[|s| - 1] == fraction[|fraction| - 1];
    } else {
      assert s == whole;
    }
  }

  /** What is left of a numeral behind its digits. */
  lemma NumeralTail(s: string, whole: string, fraction: string, exponent: string)
    requires IsNumeralOf(s, whole, fraction, exponent)
    ensures var dotted := AfterDigits(s);
            dotted == fraction + exponent && Starts(dotted, '.') == (fraction != "")
            && (fraction != "" ==> AfterDigits(dotted[1..]) == exponent)
  {
    var dotted := fraction + exponent;
    assert fraction == "" ==> dotted == exponent;
    AfterSomeDigits(whole, dotted);
    if fraction != "" {
      assert dotted[1..] == fraction[1..] + exponent;
      AfterSomeDigits(fraction[1..], exponent);
    }
  }

  lemma NumeralIsFloat(s: string, whole: string, fraction: string, exponent: string)
    requires IsNumeralOf(s, whole, fraction, exponent)
    ensures IsFloat(s)
  {
    NumeralTail(s, whole, fraction, exponent);
    assert fraction == "" ==> fraction + exponent == exponent;
    if exponent != "" {
      ExponentIsRead(exponent);
    }
  }

  lemma ExponentIsPart(s: string)
    requires s != "" && IsExponentLetter(s[0]) && IsExponent(s[1..])
    ensures IsExponentPart(s)
  {
    var signed := IsSign(s[1]);
    var digits := if signed then s[2..] else s[1..];
    assert signed ==> s[1..][1..] == s[2..];
    AfterDigitsIs(digits);
  }

  /** What follows the first digits: a fraction, and what is left. */
  function BehindFraction(dotted: string): (r: string)
    ensures |r| <= |dotted|
  {
    if Starts(dotted, '.') then AfterDigits(dotted[1..]) else dotted
  }

  lemma FractionSplits(dotted: string)
    ensures var r := BehindFraction(dotted);
            var fraction := dotted[..|dotted| - |r|];
            dotted == fraction + r && IsFraction(fraction) && (fraction != "" <==> Starts(dotted, '.'))
  {
    if Starts(dotted, '.') {
      var r := AfterDigits(dotted[1..]);
      AfterDigitsIs(dotted[1..]);
      assert dotted[..|dotted| - |r|][1..] == dotted[1..][..|dotted[1..]| - |r|];
    }
  }

  lemma WholeSplits(s: string)
    ensures var dotted := AfterDigits(s);
            var whole := s[..|s| - |dotted|];
            s == whole + dotted && AllDigits(whole)
  {
    AfterDigitsIs(s);
    Cut(s, |s| - |AfterDigits(s)|);
  }

  lemma FloatIsNumeral(s: string)
    requires IsFloat(s)
    ensures IsNumeral(s)
  {
    var dotted := AfterDigits(s);
    var exponent := BehindFraction(dotted);
    var whole, fraction := s[..|s| - |dotted|], dotted[..|dotted| - |exponent|];
    WholeSplits(s);
    FractionSplits(dotted);
    if exponent != "" {
      ExponentIsPart(exponent);
    }
    assert IsNumeralOf(s, whole, fraction, exponent);
  }

  lemma DigitsAreNumeral(s: string)
    requires AllDigits(s) && s != ""
    ensures IsNumeral(s)
  {
    assert s == s + ("" + "");
    assert IsNumeralOf(s, s, "", "");
  }

  lemma SpaceEndsTokens(c: char)
    requires IsSpace(c)
    ensures !IsIdentifierPart(c) && !IsNumberPart(c) && c != '='
  {
  }

  lemma ReadsNumeral(text: string, s: string)
    requires IsNumeral(text) && !Merges(text, s)
    ensures ParsePrimary(text + s) == Ok(Lit(NumberLiteral(text)), s)
  {
    var whole, fraction, exponent :| IsNumeralOf(text, whole, fraction, exponent);
    NumeralIsScanned(text, whole, fraction, exponent);
    NumeralIsFloat(text, whole, fraction, exponent);
    NumberEnds(text, false, s);
    ReadsScanned(text, s);
  }

  lemma ReadsScanned(text: string, s: string)
    requires IsNumberToken(text) && NumberLength(text + s, false) == |text| && IsFloat(text)
    ensures ParsePrimary(text + s) == Ok(Lit(NumberLiteral(text)), s)
  {
    var t := text + s;
    assert t[..|text|] == text && t[|text|..] == s;
    assert SkipSpace(t) == t;
    assert t[0] == text[0] && (|text| > 1 ==> t[1] == text[1]);
  }

  lemma ReadsName(name: string, s: string)
    requires IsIdentifier(name)
    requires s == "" || !IsIdentifierPart(s[0])
    ensures ParsePrimary(name + s) == Ok(NameNode(name), s)
  {
    ReadsIdentifier(name, s);
    var t := name + s;
    assert t[0] == name[0];
    assert SkipSpace(t) == t;
  }

  lemma ReadsWord(name: string, s: string)
    requires IsIdentifier(name) && (s == "" || !IsIdentifierPart(s[0]))
    ensures ParsePrimary(name + s) == Ok(Tree(Word(name)), s)
  {
    ReadsName(name, s);
    NamesMean(name);
  }

  lemma NamesMean(name: string)
    ensures NameNode(name) == Tree(Word(name))
  {
  }

  lemma ReadsQuotation(quote: char, body: string, s: string)
    requires IsQuote(quote) && IsBody(quote, body)
    ensures ParsePrimary([quote] + (body + ([quote] + s))) == Ok(Lit(Text(Unescaped(body))), s)
  {
    ReadsBody(quote, body, s);
    var t := [quote] + (body + ([quote] + s));
    assert t[1..] == body + ([quote] + s) && SkipSpace(t) == t;
  }

  // ── What ends a form ──────────────────────────────────────────────────────

  /** The text begins with something that continues a form of rank `r`, or with
      white space, behind which there may be something. */
  predicate GoesOn(r: nat, s: string) {
    || (s != "" && IsSpace(s[0]))
    || (r == CONDITIONAL && Starts(s, '?'))
    || (exists level | 0 <= level < LEVELS && r <= 1 + level :: MatchOperator(Operators(level), s) != "")
    || (r <= POSTFIX && PostfixHere(s))
  }

  predicate Stops(r: nat, s: string) { !GoesOn(r, s) }

  lemma HeadOf(op: string, s: string)
    requires 1 <= |op| <= 3
    ensures StartsWith(s, op) <==>
              |op| <= |s| && s[0] == op[0] && (|op| > 1 ==> s[1] == op[1]) && (|op| > 2 ==> s[2] == op[2])
  {
    if |op| <= |s| && s[0] == op[0] && (|op| > 1 ==> s[1] == op[1]) && (|op| > 2 ==> s[2] == op[2]) {
      assert s[..|op|] == op;
    }
  }

  /** The first characters of a level's operators; no two levels share one. */
  function FirstChars(level: nat): string
    requires level < LEVELS
  {
    match level
    case 0 => "|o"
    case 1 => "&a"
    case 2 => "=!"
    case 3 => "<>"
    case 4 => "+-"
    case _ => "*/%"
  }

  lemma FirstCharsOf(level: nat, op: string)
    requires level < LEVELS && op in Operators(level)
    ensures 1 <= |op| <= 3 && op[0] in FirstChars(level)
    ensures forall i | 0 <= i < |op| :: !IsSpace(op[i])
  {
  }

  lemma NoOperator(s: string, level: nat)
    requires level < LEVELS
    requires s == "" || s[0] !in FirstChars(level)
    ensures MatchOperator(Operators(level), s) == ""
  {
    var op := MatchOperator(Operators(level), s);
    if op != "" {
      FirstCharsOf(level, op);
      HeadOf(op, s);
    }
  }

  lemma PunctuationStops(c: char, s: string)
    requires c in ":)],?"
    ensures Stops(1, [c] + s)
    ensures c != '?' ==> Stops(0, [c] + s)
  {
    forall level | 0 <= level < LEVELS
      ensures MatchOperator(Operators(level), [c] + s) == ""
    {
      NoOperator([c] + s, level);
    }
  }

  lemma EndStops()
    ensures Stops(0, "")
  {
    forall level | 0 <= level < LEVELS
      ensures MatchOperator(Operators(level), "") == ""
    {
      NoOperator("", level);
    }
  }

  /** An operator that does not go on, as a word into an identifier or as a
      symbol into "=", is read as that operator, not as a longer or shorter one
      of its level. */
  lemma OperatorReads(level: nat, op: string, s: string)
    requires level < LEVELS && op in Operators(level)
    requires !Merges(op, s) && !Starts(s, '=')
    ensures MatchOperator(Operators(level), op + s) == op
  {
    var t, ops := op + s, Operators(level);
    FirstCharsOf(level, op);
    assert s != "" ==> t[|op|] == s[0];
    assert t[..|op|] == op;
    assert forall i | 0 <= i < |op| :: t[i] == op[i];
    var i :| 0 <= i < |ops| && ops[i] == op;
    forall j | 0 <= j < i
      ensures !OperatorHere(ops[j], t)
    {
      FirstCharsOf(level, ops[j]);
      HeadOf(ops[j], t);
    }
    FirstMatch(ops, i, t);
  }

  lemma {:induction false} FirstMatch(ops: seq<string>, i: nat, s: string)
    requires i < |ops| && ops[i] != "" && OperatorHere(ops[i], s)
    requires forall j | 0 <= j < i :: !OperatorHere(ops[j], s)
    ensures MatchOperator(ops, s) == ops[i]
  {
    if i > 0 {
      assert !OperatorHere(ops[0], s);
      FirstMatch(ops[1..], i - 1, s);
    }
  }

  /** The operators the parser tries at a level are those of the table. */
  lemma TableIs(level: nat, op: string)
    requires level < LEVELS
    ensures op in Operators(level) <==> op in PRECEDENCE[level]
  {
  }

  lemma {:induction false} LevelFromIs(least: nat, op: string, level: nat)
    requires least <= level < LEVELS && op in Operators(level)
    ensures LevelFrom(least, op) == level
    decreases level - least
  {
    TableIs(least, op);
    if least < level {
      InOneLevel(least, level, op);
      LevelFromIs(least + 1, op, level);
    }
  }

  lemma InOneLevel(a: nat, b: nat, op: string)
    requires a < b < LEVELS && op in Operators(b)
    ensures op !in Operators(a)
  {
    FirstCharsOf(b, op);
    if op in Operators(a) {
      FirstCharsOf(a, op);
    }
  }

  lemma LevelIs(op: string, level: nat)
    requires level < LEVELS && op in Operators(level)
    ensures LevelOf(op) == level
  {
    LevelFromIs(0, op, level);
  }

  lemma OfLevel(op: string)
    requires LevelOf(op) < LEVELS
    ensures op in Operators(LevelOf(op))
  {
    TableIs(LevelOf(op), op);
  }

  lemma LevelsApart(op: string, level: nat)
    requires LevelOf(op) < LEVELS && level < LEVELS && level != LevelOf(op)
    ensures op != "" && op[0] !in FirstChars(level)
  {
    OfLevel(op);
    FirstCharsOf(LevelOf(op), op);
  }

  lemma OperatorStops(op: string, s: string)
    requires LevelOf(op) < LEVELS
    ensures Stops(2 + LevelOf(op), op + s)
  {
    OfLevel(op);
    FirstCharsOf(LevelOf(op), op);
    forall level | 0 <= level < LEVELS && LevelOf(op) < level
      ensures MatchOperator(Operators(level), op + s) == ""
    {
      LevelsApart(op, level);
      NoOperator(op + s, level);
    }
  }

  // ── Reading what was written ──────────────────────────────────────────────

  lemma NumeralStarts(text: string)
    requires IsNumeral(text)
    ensures IsNumberToken(text)
  {
    var whole, fraction, exponent :| IsNumeralOf(text, whole, fraction, exponent);
    NumeralIsScanned(text, whole, fraction, exponent);
  }

  lemma FirstPartFits(w: Form, r: nat)
    requires Fits(w, r)
    ensures w.Dotted? || w.Keyed? ==> Fits(w.target, POSTFIX)
    ensures w.Applied? ==> Fits(w.callee, POSTFIX)
    ensures w.Joined? ==> Fits(w.left, Rank(w))
    ensures w.Chosen? ==> Fits(w.test, 1)
  {
  }

  lemma {:induction false} WrittenStarts(w: Form, r: nat, st: Style, rest: string)
    requires Fits(w, r) && IsStyle(st)
    ensures var s := Written(w, st, rest); s != "" && !IsSpace(s[0]) && s[0] !in ")]="
    decreases w
  {
    FirstPartFits(w, r);
    match w
    case Numeral(text) => NumeralStarts(text);
    case Dotted(o, name) => WrittenStarts(o, POSTFIX, st, Then(st, ".", Then(st, name, rest)));
    case Keyed(o, k) => WrittenStarts(o, POSTFIX, st, Then(st, "[", Written(k, st, Then(st, "]", rest))));
    case Applied(c, args) => WrittenStarts(c, POSTFIX, st, Then(st, "(", WrittenList(args, st, Then(st, ")", rest))));
    case Joined(op, l, right) => WrittenStarts(l, Rank(w), st, Then(st, op, Written(right, st, rest)));
    case Chosen(t, c, a) => WrittenStarts(t, 1, st, Then(st, "?", Written(c, st, Then(st, ":", Written(a, st, rest)))));
    case _ =>
  }

  lemma GapFirst(r: nat, gap: string, s: string)
    requires r <= PRIMARY && AllSpace(gap)
    ensures ParseAt(r, gap + s) == ParseAt(r, s)
  {
    SpaceFirst(r, gap + s);
    SpaceFirst(r, s);
    SkipsGap(gap, s);
  }

  // The forms, tightest first. A primary form is read up to the white space
  // after it; a postfix chain, and a chain of operators of one level, up to its
  // end, with the reading of the chain going on from there, so that chains come
  // out nested to the left; every other form whole.

  /** The last token of a primary form. */
  function LastToken(w: Form): string {
    match w
    case Word(name) => name
    case Numeral(text) => text
    case Quotation(_, _) => ""
    case Listed(_) => "]"
    case _ => ")"
  }

  lemma {:induction false} ReadsPrimary(w: Form, st: Style, rest: string)
    requires Fits(w, PRIMARY) && IsStyle(st)
    ensures ParsePrimary(Written(w, st, rest)) == Ok(Tree(w), After(st, LastToken(w), rest))
    decreases w, 0
  {
    var end := After(st, LastToken(w), rest);
    AfterEnds(st, LastToken(w), rest);
    if w.Word? {
      ReadsWord(w.name, end);
    } else if w.Numeral? {
      ReadsNumeral(w.text, end);
    } else if w.Quotation? {
      ReadsQuotation(w.quote, w.body, end);
    } else if w.Listed? {
      var items := WrittenList(w.items, st, "]" + end);
      ReadsArguments(w.items, ']', Gap(st, "[", items), st, end);
      OpensArray(After(st, "[", items));
    } else {
      var inner := Written(w.inner, st, ")" + end);
      PunctuationStops(')', end);
      ReadsInner(w.inner, Gap(st, "(", inner), st, ")" + end);
      OpensParens(After(st, "(", inner), end);
    }
  }

  lemma OpensArray(s: string)
    requires ParseArguments(']', s).Ok?
    ensures var r := ParseArguments(']', s); ParsePrimary("[" + s) == Ok(Array(r.value), r.rest)
  {
    var t := "[" + s;
    assert t[1..] == s && SkipSpace(t) == t;
  }

  lemma OpensParens(s: string, rest: string)
    requires ParseExpression(s).Ok? && ParseExpression(s).rest == ")" + rest
    ensures ParsePrimary("(" + s) == Ok(ParseExpression(s).value, rest)
  {
    var t := "(" + s;
    var end := ")" + rest;
    assert t[1..] == s && SkipSpace(t) == t;
    assert end[1..] == rest && SkipSpace(end) == end;
  }

  lemma {:induction false} ReadsArguments(ws: seq<Form>, closing: char, gap: string, st: Style, rest: string)
    requires (forall i | 0 <= i < |ws| :: Fits(ws[i], 0)) && IsStyle(st) && closing in ")]"
    requires AllSpace(gap)
    ensures ParseArguments(closing, gap + WrittenList(ws, st, [closing] + rest)) == Ok(Trees(ws), rest)
    decreases ws, 41
  {
    var t := WrittenList(ws, st, [closing] + rest);
    SkipsGap(gap, t);
    if ws == [] {
      assert t[1..] == rest;
    } else {
      WrittenStarts(ws[0], 0, st, if |ws| == 1 then [closing] + rest else Then(st, ",", WrittenList(ws[1..], st, [closing] + rest)));
      assert SkipSpace(t) == t;
      ReadsList(ws, [], closing, st, rest);
      assert [] + Trees(ws) == Trees(ws);
    }
  }

  lemma {:induction false} ReadsList(ws: seq<Form>, done: seq<Node>, closing: char, st: Style, rest: string)
    requires (forall i | 0 <= i < |ws| :: Fits(ws[i], 0)) && IsStyle(st) && closing in ")]" && ws != []
    ensures ContinueArguments(closing, done, WrittenList(ws, st, [closing] + rest)) == Ok(done + Trees(ws), rest)
    decreases ws, 40
  {
    var end := [closing] + rest;
    if |ws| == 1 {
      PunctuationStops(closing, rest);
      ReadsExpression(ws[0], st, end);
      assert end[1..] == rest;
      assert Trees(ws) == [Tree(ws[0])];
    } else {
      var more := WrittenList(ws[1..], st, end);
      var tail := After(st, ",", more);
      PunctuationStops(',', tail);
      ReadsExpression(ws[0], st, "," + tail);
      ContinuesList(closing, done, WrittenList(ws, st, end), Tree(ws[0]), tail);
      ReadsList(ws[1..], done + [Tree(ws[0])], closing, st, rest);
      ContinueAfterGap(closing, done + [Tree(ws[0])], Gap(st, ",", more), more);
      TreesOneMore(done, ws);
    }
  }

  lemma ContinuesList(closing: char, done: seq<Node>, s: string, arg: Node, tail: string)
    requires ParseExpression(s) == Ok(arg, "," + tail)
    ensures ContinueArguments(closing, done, s) == ContinueArguments(closing, done + [arg], tail)
  {
    assert ("," + tail)[1..] == tail && SkipSpace("," + tail) == "," + tail;
  }

  lemma TreesOneMore(done: seq<Node>, ws: seq<Form>)
    requires ws != []
    ensures done + [Tree(ws[0])] + Trees(ws[1..]) == done + Trees(ws)
  {
    Regroup(done, [Tree(ws[0])], Trees(ws[1..]));
  }

  lemma ContinueAfterGap(closing: char, done: seq<Node>, gap: string, s: string)
    requires AllSpace(gap)
    ensures ContinueArguments(closing, done, gap + s) == ContinueArguments(closing, done, s)
  {
    GapFirst(0, gap, s);
    assert ParseAt(0, gap + s) == ParseExpression(gap + s);
    assert ParseAt(0, s) == ParseExpression(s);
  }

  lemma {:induction false} ReadsPostfix(w: Form, st: Style, rest: string)
    requires Fits(w, POSTFIX) && IsStyle(st)
    ensures ParsePostfix(Written(w, st, rest)) == ContinuePostfix(Tree(w), rest)
    decreases w, 1
  {
    if w.Dotted? {
      ReadsPostfix(w.target, st, Then(st, ".", Then(st, w.name, rest)));
      ContinuesMember(Tree(w.target), w.name, st, rest);
    } else if w.Keyed? {
      var end := After(st, "]", rest);
      var key := Written(w.key, st, "]" + end);
      PunctuationStops(']', end);
      ReadsInner(w.key, Gap(st, "[", key), st, "]" + end);
      ReadsPostfix(w.target, st, Then(st, "[", key));
      ContinuesIndex(Tree(w.target), Tree(w.key), After(st, "[", key), end);
      PostfixAfterGap(Tree(w), Gap(st, "]", rest), rest);
    } else if w.Applied? {
      var end := After(st, ")", rest);
      var args := WrittenList(w.args, st, ")" + end);
      ReadsArguments(w.args, ')', Gap(st, "(", args), st, end);
      ReadsPostfix(w.callee, st, Then(st, "(", args));
      ContinuesCall(Tree(w.callee), Trees(w.args), After(st, "(", args), end);
      PostfixAfterGap(Tree(w), Gap(st, ")", rest), rest);
    } else {
      ReadsPrimary(w, st, rest);
      PostfixAfterGap(Tree(w), Gap(st, LastToken(w), rest), rest);
    }
  }

  lemma PostfixAfterGap(node: Node, gap: string, s: string)
    requires AllSpace(gap)
    ensures ContinuePostfix(node, gap + s) == ContinuePostfix(node, s)
  {
    SkipsGap(gap, s);
  }

  lemma ContinuesMember(target: Node, name: string, st: Style, rest: string)
    requires IsStyle(st) && IsIdentifier(name)
    ensures ContinuePostfix(target, Then(st, ".", Then(st, name, rest))) == ContinuePostfix(Member(target, name), rest)
  {
    var end := After(st, name, rest);
    var s := After(st, ".", name + end);
    assert ("." + s)[1..] == s && SkipSpace("." + s) == "." + s;
    AfterEnds(st, ".", name + end);
    AfterEnds(st, name, rest);
    assert (name + end)[0] == name[0];
    ReadsIdentifier(name, end);
    assert ParseIdentifier(s) == ParseIdentifier(name + end);
    PostfixAfterGap(Member(target, name), Gap(st, name, rest), rest);
  }

  lemma ContinuesIndex(target: Node, key: Node, inner: string, rest: string)
    requires ParseExpression(inner) == Ok(key, "]" + rest)
    ensures ContinuePostfix(target, "[" + inner) == ContinuePostfix(Index(target, key), rest)
  {
    var t := "[" + inner;
    var end := "]" + rest;
    assert t[1..] == inner && SkipSpace(t) == t;
    assert end[1..] == rest && SkipSpace(end) == end;
  }

  lemma ContinuesCall(callee: Node, args: seq<Node>, inner: string, rest: string)
    requires ParseArguments(')', inner) == Ok(args, rest)
    ensures ContinuePostfix(callee, "(" + inner) == ContinuePostfix(Call(callee, args), rest)
  {
    var t := "(" + inner;
    assert t[1..] == inner && SkipSpace(t) == t;
  }

  lemma {:induction false} ReadsUnary(w: Form, st: Style, rest: string)
    requires Fits(w, UNARY) && IsStyle(st) && Stops(UNARY, rest)
    ensures ParseUnary(Written(w, st, rest)) == Ok(Tree(w), rest)
    decreases w, 2
  {
    if w.Signed? {
      ReadsUnary(w.operand, st, rest);
      WrittenStarts(w.operand, UNARY, st, rest);
      OpensUnary(w.sign, st, Written(w.operand, st, rest));
    } else {
      ReadsPostfix(w, st, rest);
      PostfixStops(Tree(w), rest);
      BeginsPostfix(w, st, rest);
    }
  }

  lemma PostfixStops(node: Node, rest: string)
    requires Stops(POSTFIX, rest)
    ensures ContinuePostfix(node, rest) == Ok(node, rest)
  {
    assert SkipSpace(rest) == rest;
  }

  function SignMeans(sign: string): string { if sign == "not" then "!" else sign }

  lemma OpensUnary(sign: string, st: Style, s: string)
    requires sign in ["!", "-", "+", "not"] && IsStyle(st) && ParseUnary(s).Ok? && !Starts(s, '=')
    ensures ParseUnary(Then(st, sign, s)) == Ok(Unary(SignMeans(sign), ParseUnary(s).value), ParseUnary(s).rest)
  {
    var gap := Gap(st, sign, s);
    GapFirst(UNARY, gap, s);
    assert ParseAt(UNARY, gap + s) == ParseUnary(gap + s);
    assert ParseAt(UNARY, s) == ParseUnary(s);
    AfterEnds(st, sign, s);
    SignReads(sign, gap + s);
  }

  lemma SignReads(sign: string, s: string)
    requires sign in ["!", "-", "+", "not"]
    requires !Merges(sign, s) && !Starts(s, '=') && ParseUnary(s).Ok?
    ensures ParseUnary(sign + s) == Ok(Unary(SignMeans(sign), ParseUnary(s).value), ParseUnary(s).rest)
  {
    var t := sign + s;
    assert SkipSpace(t) == t;
    assert s != "" ==> t[|sign|] == s[0];
    if sign == "not" {
      assert t[..3] == "not" && t[3..] == s;
      assert OperatorHere("not", t);
    } else {
      HeadOf("!=", t);
      assert t[1..] == s && sign == [t[0]];
    }
  }

  /** What begins with a postfix form begins with no prefix operator. */
  lemma BeginsPostfix(w: Form, st: Style, rest: string)
    requires Fits(w, POSTFIX) && IsStyle(st)
    ensures ParseUnary(Written(w, st, rest)) == ParsePostfix(Written(w, st, rest))
  {
    WrittenStarts(w, POSTFIX, st, rest);
    NoPrefix(w, st, rest);
    var t := Written(w, st, rest);
    assert SkipSpace(t) == t;
  }

  lemma {:induction false} NoPrefix(w: Form, st: Style, rest: string)
    requires Fits(w, POSTFIX) && IsStyle(st)
    ensures var t := Written(w, st, rest);
            t != "" && !IsPrefix(t[0]) && !OperatorHere("not", t)
    decreases w
  {
    match w
    case Dotted(o, name) => NoPrefix(o, st, Then(st, ".", Then(st, name, rest)));
    case Keyed(o, k) => NoPrefix(o, st, Then(st, "[", Written(k, st, Then(st, "]", rest))));
    case Applied(c, args) => NoPrefix(c, st, Then(st, "(", WrittenList(args, st, Then(st, ")", rest))));
    case Word(name) =>
      AfterEnds(st, name, rest);
      NameNoPrefix(name, After(st, name, rest));
    case Numeral(text) =>
      NumeralStarts(text);
      HeadOf("not", Written(w, st, rest));
    case _ => HeadOf("not", Written(w, st, rest));
  }

  lemma NameNoPrefix(name: string, s: string)
    requires IsIdentifier(name) && name != "not" && (s == "" || !IsIdentifierPart(s[0]))
    ensures var t := name + s; !IsPrefix(t[0]) && !OperatorHere("not", t)
  {
    var t := name + s;
    HeadOf("not", t);
    assert forall i | 0 <= i < |t| :: t[i] == if i < |name| then name[i] else s[i - |name|];
    assert t[..|name|] == name;
  }

  lemma InfixText(w: Form, st: Style, rest: string)
    requires w.Joined?
    ensures Written(w, st, rest) == Written(w.left, st, Then(st, w.op, Written(w.right, st, rest)))
  {
  }

  lemma InfixStrips(w: Form)
    requires w.Joined?
    ensures Tree(w) == Infix(w.op, Tree(w.left), Tree(w.right))
  {
  }

  lemma InfixStands(w: Form, level: nat)
    requires w.Joined? && LevelOf(w.op) == level < LEVELS && Fits(w, 1 + level)
    ensures w.op in Operators(level) && Fits(w.left, 1 + level) && Fits(w.right, 2 + level)
  {
    OfLevel(w.op);
  }

  lemma StandsTighter(w: Form, level: nat)
    requires level < LEVELS && Fits(w, 1 + level) && !(w.Joined? && LevelOf(w.op) == level)
    ensures Fits(w, 2 + level)
  {
  }

  predicate MisreadAt(level: nat, s: string, node: Node, rest: string)
    requires level <= LEVELS
  {
    ParseBinary(level, s) != Ok(node, rest)
  }

  /** At a level of the table the text is read as a tree, up to `rest`. */
  predicate ReadAt(level: nat, s: string, node: Node, rest: string)
    requires level <= LEVELS
  {
    !MisreadAt(level, s, node, rest)
  }

  predicate StraysAt(level: nat, s: string, node: Node, rest: string)
    requires level < LEVELS
  {
    ParseBinary(level, s) != ContinueBinary(level, node, rest)
  }

  /** At a level of the table reading the text comes to a tree, at `rest`, and
      the chain of that level goes on from there. */
  predicate ChainsAt(level: nat, s: string, node: Node, rest: string)
    requires level < LEVELS
  {
    !StraysAt(level, s, node, rest)
  }

  lemma ChainBegins(level: nat, s: string, node: Node, rest: string)
    requires level < LEVELS && ReadAt(level + 1, s, node, rest)
    ensures ChainsAt(level, s, node, rest)
  {
  }

  lemma ChainEnds(level: nat, s: string, node: Node, rest: string)
    requires level < LEVELS && ChainsAt(level, s, node, rest) && Stops(1 + level, rest)
    ensures ReadAt(level, s, node, rest)
  {
    assert SkipSpace(rest) == rest;
  }

  lemma ChainGoesOn(level: nat, s: string, op: string, left: Node, right: Node, st: Style, operand: string, rest: string)
    requires level < LEVELS && op in Operators(level) && IsStyle(st) && !Starts(operand, '=')
    requires ChainsAt(level, s, left, Then(st, op, operand)) && ReadAt(level + 1, operand, right, rest)
    ensures ChainsAt(level, s, Infix(op, left, right), rest)
  {
    ContinuesInfix(level, op, left, st, operand);
  }

  lemma {:induction false} ReadsBinary(w: Form, level: nat, st: Style, rest: string)
    requires Fits(w, 1 + level) && IsStyle(st) && level < LEVELS && Stops(2 + level, rest)
    ensures ChainsAt(level, Written(w, st, rest), Tree(w), rest)
    decreases w, 20 - 2 * level
  {
    if w.Joined? && LevelOf(w.op) == level {
      ReadsInfix(w, level, st, rest);
      InfixStrips(w);
    } else {
      StandsTighter(w, level);
      ReadsAtLevel(w, level + 1, st, rest);
      ChainBegins(level, Written(w, st, rest), Tree(w), rest);
    }
  }

  lemma {:induction false} ReadsInfix(w: Form, level: nat, st: Style, rest: string)
    requires w.Joined? && LevelOf(w.op) == level < LEVELS && Fits(w, 1 + level) && IsStyle(st) && Stops(2 + level, rest)
    ensures ChainsAt(level, Written(w, st, rest), Infix(w.op, Tree(w.left), Tree(w.right)), rest)
    decreases w, 0
  {
    var operand := Written(w.right, st, rest);
    InfixText(w, st, rest);
    InfixStands(w, level);
    StopsBefore(level, w.op, After(st, w.op, operand));
    ReadsBinary(w.left, level, st, Then(st, w.op, operand));
    ReadsAtLevel(w.right, level + 1, st, rest);
    WrittenStarts(w.right, 2 + level, st, rest);
    ChainGoesOn(level, Written(w, st, rest), w.op, Tree(w.left), Tree(w.right), st, operand, rest);
  }

  lemma StopsBefore(level: nat, op: string, s: string)
    requires level < LEVELS && op in Operators(level)
    ensures Stops(2 + level, op + s)
  {
    LevelIs(op, level);
    OperatorStops(op, s);
  }

  lemma ContinuesInfix(level: nat, op: string, left: Node, st: Style, s: string)
    requires level < LEVELS && op in Operators(level) && IsStyle(st)
    requires ParseBinary(level + 1, s).Ok? && !Starts(s, '=')
    ensures var r := ParseBinary(level + 1, s);
            ContinueBinary(level, left, Then(st, op, s)) == ContinueBinary(level, Infix(op, left, r.value), r.rest)
  {
    var gap := Gap(st, op, s);
    GapFirst(2 + level, gap, s);
    assert ParseAt(2 + level, gap + s) == ParseBinary(level + 1, gap + s);
    assert ParseAt(2 + level, s) == ParseBinary(level + 1, s);
    AfterEnds(st, op, s);
    OperatorContinues(level, op, left, gap + s);
  }

  lemma OperatorContinues(level: nat, op: string, left: Node, s: string)
    requires level < LEVELS && op in Operators(level) && !Merges(op, s) && !Starts(s, '=')
    requires ParseBinary(level + 1, s).Ok?
    ensures var r := ParseBinary(level + 1, s);
            ContinueBinary(level, left, op + s) == ContinueBinary(level, Infix(op, left, r.value), r.rest)
  {
    OperatorReads(level, op, s);
    FirstCharsOf(level, op);
    assert (op + s)[0] == op[0] && !IsSpace(op[0]);
    assert SkipSpace(op + s) == op + s && (op + s)[|op|..] == s;
  }

  lemma {:induction false} ReadsAtLevel(w: Form, level: nat, st: Style, rest: string)
    requires Fits(w, 1 + level) && IsStyle(st) && level <= LEVELS && Stops(1 + level, rest)
    ensures ReadAt(level, Written(w, st, rest), Tree(w), rest)
    decreases w, 21 - 2 * level
  {
    if level == LEVELS {
      ReadsUnary(w, st, rest);
    } else {
      StopsTighter(level, rest);
      ReadsBinary(w, level, st, rest);
      ChainEnds(level, Written(w, st, rest), Tree(w), rest);
    }
  }

  lemma StopsTighter(level: nat, rest: string)
    requires level < LEVELS && Stops(1 + level, rest)
    ensures Stops(2 + level, rest)
  {
  }

  predicate MisreadWhole(s: string, node: Node, rest: string) { ParseExpression(s) != Ok(node, rest) }

  /** The text is read as an expression that is the tree, up to `rest`. */
  predicate ReadWhole(s: string, node: Node, rest: string) { !MisreadWhole(s, node, rest) }

  lemma {:induction false} ReadsExpression(w: Form, st: Style, rest: string)
    requires Fits(w, 0) && IsStyle(st) && Stops(0, rest)
    ensures ReadWhole(Written(w, st, rest), Tree(w), rest)
    decreases w, 30
  {
    if w.Chosen? {
      var last := Written(w.alternate, st, rest);
      var s2 := After(st, ":", last);
      var middle := Written(w.consequent, st, ":" + s2);
      var s1 := After(st, "?", middle);
      ConditionalStands(w);
      PunctuationStops('?', s1);
      ReadsAtLevel(w.test, 0, st, "?" + s1);
      PunctuationStops(':', s2);
      ReadsInner(w.consequent, Gap(st, "?", middle), st, ":" + s2);
      ReadsInner(w.alternate, Gap(st, ":", last), st, rest);
      ContinuesConditional(Written(w, st, rest), Tree(w.test), s1, Tree(w.consequent), s2, Tree(w.alternate), rest);
    } else {
      UnconditionalStands(w, rest);
      ReadsAtLevel(w, 0, st, rest);
      ReadsUnconditional(Written(w, st, rest), Tree(w), rest);
    }
  }

  lemma ConditionalStands(w: Form)
    requires w.Chosen? && Fits(w, 0)
    ensures Fits(w.test, 1) && Fits(w.consequent, 0) && Fits(w.alternate, 0)
    ensures Tree(w) == Conditional(Tree(w.test), Tree(w.consequent), Tree(w.alternate))
  {
  }

  lemma UnconditionalStands(w: Form, rest: string)
    requires !w.Chosen? && Fits(w, 0) && Stops(0, rest)
    ensures Fits(w, 1) && Stops(1, rest)
  {
  }

  lemma ReadsUnconditional(s: string, node: Node, rest: string)
    requires ReadAt(0, s, node, rest) && Stops(0, rest)
    ensures ReadWhole(s, node, rest)
  {
    assert SkipSpace(rest) == rest;
  }

  lemma ContinuesConditional(s: string, test: Node, s1: string, consequent: Node, s2: string, alternate: Node, rest: string)
    requires ReadAt(0, s, test, "?" + s1)
    requires ReadWhole(s1, consequent, ":" + s2) && ReadWhole(s2, alternate, rest)
    ensures ReadWhole(s, Conditional(test, consequent, alternate), rest)
  {
    assert ("?" + s1)[1..] == s1 && SkipSpace("?" + s1) == "?" + s1;
    assert (":" + s2)[1..] == s2 && SkipSpace(":" + s2) == ":" + s2;
  }

  /** An expression after white space: inside brackets, and in a branch. */
  lemma {:induction false} ReadsInner(w: Form, gap: string, st: Style, rest: string)
    requires Fits(w, 0) && IsStyle(st) && AllSpace(gap) && Stops(0, rest)
    ensures ReadWhole(gap + Written(w, st, rest), Tree(w), rest)
    decreases w, 31
  {
    ReadsExpression(w, st, rest);
    GapBefore(gap, Written(w, st, rest), Tree(w), rest);
  }

  lemma GapBefore(gap: string, s: string, node: Node, rest: string)
    requires AllSpace(gap) && ReadWhole(s, node, rest)
    ensures ReadWhole(gap + s, node, rest)
  {
    GapFirst(0, gap, s);
    assert ParseAt(0, gap + s) == ParseExpression(gap + s);
    assert ParseAt(0, s) == ParseExpression(s);
  }

  // ── The round trip ────────────────────────────────────────────────────────

  /** Parsing undoes writing: however its tokens are spelled, however many
      redundant parentheses a form holds and whatever white space stands between
      its tokens and before it, none where two tokens do not run together, its
      text is read as the tree it stands for, to the end. */
  lemma ParseUndoesWriting(w: Form, st: Style, lead: string)
    requires Spelled(w) && IsStyle(st) && Readable(w, 0) && AllSpace(lead)
    ensures Parse(lead + Written(w, st, "")) == Ok(Tree(w), "")
  {
    SkipsGap(lead, Written(w, st, ""));
    WrittenStarts(w, 0, st, "");
    EndStops();
    ReadsExpression(w, st, "");
  }
}
