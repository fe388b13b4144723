/** Whatever the parser accepts is the text of a written form: its layout is read
    off the text, its form off the parse. */
module ExpressionSoundness {
  import opened Strings
  import opened ExpressionTree
  import opened ExpressionForms
  import opened ExpressionGrammar
  import opened ExpressionRoundTrip

  // ── The layout of a text ──────────────────────────────────────────────────

  /** The white space a text ends in. */
  function TrailingSpace(s: string): (gap: string)
    ensures AllSpace(gap)
  {
    if s != "" && IsSpace(s[|s| - 1]) then TrailingSpace(s[..|s| - 1]) + [s[|s| - 1]] else ""
  }

  /** The gaps of a text: in front of each end of it, the white space there. */
  function LayoutOf(source: string): (st: Style)
    ensures IsStyle(st)
  {
    Style((rest: string) => if |rest| <= |source| then TrailingSpace(source[..|source| - |rest|]) else "")
  }

  predicate IsEnd(s: string, source: string) { |s| <= |source| && source[|source| - |s|..] == s }

  lemma EndOfEnd(s: string, n: nat, source: string)
    requires IsEnd(s, source) && n <= |s|
    ensures IsEnd(s[n..], source)
  {
  }

  lemma {:induction false} TrailingOf(front: string, gap: string)
    requires front != "" && !IsSpace(front[|front| - 1]) && AllSpace(gap)
    ensures TrailingSpace(front + gap) == gap
  {
    var u := front + gap;
    if gap == "" {
      assert u == front;
    } else {
      var n := |gap| - 1;
      TrailingOf(front, gap[..n]);
      assert u[..|u| - 1] == front + gap[..n];
      assert gap == gap[..n] + [gap[n]];
    }
  }

  lemma {:induction false} Skipped(s: string)
    ensures var t := SkipSpace(s); IsEnd(t, s) && AllSpace(s[..|s| - |t|])
  {
    if s != "" && IsSpace(s[0]) {
      Skipped(s[1..]);
      var t := SkipSpace(s);
      assert forall i | 0 < i < |s| - |t| :: s[i] == s[1..][i - 1];
    }
  }

  lemma SkippedEnd(s: string, source: string)
    requires IsEnd(s, source)
    ensures IsEnd(SkipSpace(s), source)
  {
    Skipped(s);
  }

  lemma GapIs(front: string, s: string, source: string)
    requires IsEnd(front + s, source) && front != "" && !IsSpace(front[|front| - 1])
    ensures LayoutOf(source).gap(SkipSpace(s)) + SkipSpace(s) == s
  {
    var t := SkipSpace(s);
    Skipped(s);
    Cut(s, |s| - |t|);
    GapBehind(front, s[..|s| - |t|], t, source);
  }

  lemma GapBehind(front: string, gap: string, t: string, source: string)
    requires IsEnd(front + (gap + t), source) && front != "" && !IsSpace(front[|front| - 1]) && AllSpace(gap)
    ensures LayoutOf(source).gap(t) == gap
  {
    FrontIs(front, gap, t, source);
    TrailingOf(source[..|source| - |gap| - |t|], gap);
  }

  lemma FrontIs(front: string, gap: string, t: string, source: string)
    requires IsEnd(front + (gap + t), source) && front != ""
    ensures var u := source[..|source| - |gap| - |t|];
            u != "" && u[|u| - 1] == front[|front| - 1] && source[..|source| - |t|] == u + gap
  {
    var n := |source| - |front| - |gap| - |t|;
    assert forall i | 0 <= i < |front| + |gap| + |t| :: source[n + i] == (front + (gap + t))[i];
  }

  /** A text and the gaps in it. */
  datatype Laid = Laid(text: string, st: Style)

  /** Behind a token, up to what follows, the style puts what is there. */
  predicate Unsettled(token: string, s: string, st: Style) { After(st, token, SkipSpace(s)) != s }

  predicate Settled(token: string, s: string, st: Style) { !Unsettled(token, s, st) }

  ghost predicate IsLaid(src: Laid) {
    forall front, token, s | IsToken(front, token, s) && IsEnd(front + s, src.text) :: Settled(token, s, src.st)
  }

  /** Characters that end in no white space, of a token the text behind them
      does not prolong. */
  predicate IsToken(front: string, token: string, s: string) {
    front != "" && !IsSpace(front[|front| - 1]) && !Merges(token, s)
  }

  lemma LayoutIsLaid(source: string)
    ensures IsLaid(Laid(source, LayoutOf(source)))
  {
    var st := LayoutOf(source);
    forall front, token, s | IsToken(front, token, s) && IsEnd(front + s, source)
      ensures Settled(token, s, st)
    {
      GapIs(front, s, source);
      if st.gap(SkipSpace(s)) == "" {
        assert SkipSpace(s) == s;
      }
    }
  }

  /** The text ends in `s`. */
  ghost predicate Off(s: string, src: Laid) { !IsLaid(src) || !IsEnd(s, src.text) }

  ghost predicate At(s: string, src: Laid) { !Off(s, src) }

  lemma AtLater(s: string, n: nat, src: Laid)
    requires At(s, src) && n <= |s|
    ensures At(s[n..], src)
  {
  }

  lemma AtSkipped(s: string, src: Laid)
    requires At(s, src)
    ensures At(SkipSpace(s), src)
  {
    SkippedEnd(s, src.text);
  }

  lemma Settles(front: string, token: string, s: string, src: Laid)
    requires At(front + s, src) && IsToken(front, token, s)
    ensures Settled(token, s, src.st) && At(s, src)
  {
    AtLater(front + s, |front|, src);
    assert (front + s)[|front|..] == s;
  }

  // ── Forms in their places ─────────────────────────────────────────────────

  ghost predicate Misplaced(f: Form, n: Node, r: nat, s: string, rest: string, src: Laid) {
    !Fits(f, r) || Tree(f) != n || !At(rest, src) || Written(f, src.st, SkipSpace(rest)) != SkipSpace(s)
  }

  /** Between one end of the text and a shorter one stands the form, in a place
      where something of rank `r` may, for the tree. */
  ghost predicate Placed(f: Form, n: Node, r: nat, s: string, rest: string, src: Laid) {
    !Misplaced(f, n, r, s, rest, src)
  }

  ghost predicate MisplacedList(fs: seq<Form>, ns: seq<Node>, closing: char, s: string, rest: string, src: Laid) {
    || (exists i | 0 <= i < |fs| :: !Fits(fs[i], 0)) || Trees(fs) != ns
    || !At([closing] + rest, src) || WrittenList(fs, src.st, [closing] + rest) != SkipSpace(s)
  }

  /** The same of a list up to the character that closes it. */
  ghost predicate PlacedList(fs: seq<Form>, ns: seq<Node>, closing: char, s: string, rest: string, src: Laid) {
    !MisplacedList(fs, ns, closing, s, rest, src)
  }

  // How a form is written where the gaps are those of the text.

  lemma WordText(name: string, st: Style, s: string)
    requires Settled(name, s, st)
    ensures Written(Word(name), st, SkipSpace(s)) == name + s
  {
  }

  lemma NumeralText(text: string, st: Style, s: string)
    requires Settled(text, s, st)
    ensures Written(Numeral(text), st, SkipSpace(s)) == text + s
  {
  }

  lemma QuotationText(quote: char, body: string, st: Style, s: string)
    requires Settled("", s, st)
    ensures Written(Quotation(quote, body), st, SkipSpace(s)) == [quote] + (body + ([quote] + s))
  {
  }

  lemma DottedText(f: Form, name: string, st: Style, s: string, t: string)
    requires Settled(".", s, st) && Settled(name, t, st) && SkipSpace(s) == name + t
    ensures Written(Dotted(f, name), st, SkipSpace(t)) == Written(f, st, "." + s)
  {
  }

  lemma KeyedText(f: Form, key: Form, st: Style, s: string, t: string)
    requires Settled("[", s, st) && Settled("]", t, st) && SkipSpace(s) == Written(key, st, "]" + t)
    ensures Written(Keyed(f, key), st, SkipSpace(t)) == Written(f, st, "[" + s)
  {
  }

  lemma AppliedText(f: Form, args: seq<Form>, st: Style, s: string, t: string)
    requires Settled("(", s, st) && Settled(")", t, st) && SkipSpace(s) == WrittenList(args, st, ")" + t)
    ensures Written(Applied(f, args), st, SkipSpace(t)) == Written(f, st, "(" + s)
  {
  }

  lemma ListedText(items: seq<Form>, st: Style, s: string, t: string)
    requires Settled("[", s, st) && Settled("]", t, st) && SkipSpace(s) == WrittenList(items, st, "]" + t)
    ensures Written(Listed(items), st, SkipSpace(t)) == "[" + s
  {
  }

  lemma ParensText(inner: Form, st: Style, s: string, t: string)
    requires Settled("(", s, st) && Settled(")", t, st) && SkipSpace(s) == Written(inner, st, ")" + t)
    ensures Written(Parens(inner), st, SkipSpace(t)) == "(" + s
  {
  }

  lemma SignedText(sign: string, operand: Form, st: Style, s: string, rest: string)
    requires Settled(sign, s, st) && SkipSpace(s) == Written(operand, st, rest)
    ensures Written(Signed(sign, operand), st, rest) == sign + s
  {
  }

  lemma JoinedText(op: string, f: Form, g: Form, st: Style, s: string, rest: string)
    requires Settled(op, s, st) && SkipSpace(s) == Written(g, st, rest)
    ensures Written(Joined(op, f, g), st, rest) == Written(f, st, op + s)
  {
  }

  lemma ChosenText(test: Form, f: Form, g: Form, st: Style, s: string, t: string, rest: string)
    requires Settled("?", s, st) && Settled(":", t, st)
    requires SkipSpace(s) == Written(f, st, ":" + t) && SkipSpace(t) == Written(g, st, rest)
    ensures Written(Chosen(test, f, g), st, rest) == Written(test, st, "?" + s)
  {
  }

  lemma ListText(f: Form, more: seq<Form>, st: Style, s: string, end: string)
    requires Settled(",", s, st) && more != [] && SkipSpace(s) == WrittenList(more, st, end)
    ensures WrittenList([f] + more, st, end) == Written(f, st, "," + s)
  {
    assert ([f] + more)[1..] == more;
  }

  lemma PlacedSkipped(f: Form, n: Node, r: nat, s: string, rest: string, src: Laid)
    requires Placed(f, n, r, s, rest, src)
    ensures Placed(f, n, r, s, SkipSpace(rest), src)
  {
    AtSkipped(rest, src);
    SkipTwice(rest);
  }

  /** What may stand in a tight place may in a loose one. */
  lemma PlacedLooser(f: Form, n: Node, r: nat, q: nat, s: string, rest: string, src: Laid)
    requires Placed(f, n, r, s, rest, src) && q <= r
    ensures Placed(f, n, q, s, rest, src)
  {
    FitsLooser(f, r, q);
  }

  lemma FitsLooser(f: Form, r: nat, q: nat)
    requires Fits(f, r) && q <= r
    ensures Fits(f, q)
  {
  }

  lemma Places(f: Form, n: Node, r: nat, s: string, rest: string, src: Laid)
    requires Fits(f, r) && Tree(f) == n && At(rest, src) && Written(f, src.st, SkipSpace(rest)) == SkipSpace(s)
    ensures Placed(f, n, r, s, rest, src)
  {
  }

  lemma PlacedText(f: Form, n: Node, r: nat, s: string, rest: string, src: Laid)
    requires Placed(f, n, r, s, rest, src) && SkipSpace(rest) == rest
    ensures Fits(f, r) && Tree(f) == n && At(rest, src) && Written(f, src.st, rest) == SkipSpace(s)
  {
  }

  /** A character of punctuation, and what is behind it. */
  lemma Punctuated(c: char, s: string, src: Laid)
    requires At(s, src) && Starts(s, c) && c in "()[],:?."
    ensures s == [c] + s[1..] && Settled([c], s[1..], src.st) && At(s[1..], src)
  {
    assert s == [c] + s[1..];
    Settles([c], [c], s[1..], src);
  }

  // ── Tokens ────────────────────────────────────────────────────────────────

  lemma {:induction false} SoundString(quote: char, s: string) returns (body: string)
    requires ParseString(quote, s).Ok?
    ensures var r := ParseString(quote, s);
            s == body + ([quote] + r.rest) && IsBody(quote, body) && Unescaped(body) == r.value
    decreases |s|
  {
    if s[0] == quote {
      body := "";
      assert s == [quote] + s[1..];
    } else if s[0] == '\\' && |s| > 1 {
      var tail := SoundString(quote, s[2..]);
      body := ['\\', s[1]] + tail;
      assert body[2..] == tail;
      assert s == ['\\', s[1]] + s[2..];
      Regroup(['\\', s[1]], tail, [quote] + ParseString(quote, s).rest);
    } else {
      var tail := SoundString(quote, s[1..]);
      body := [s[0]] + tail;
      assert body[1..] == tail;
      assert s == [s[0]] + s[1..];
      Regroup([s[0]], tail, [quote] + ParseString(quote, s).rest);
    }
  }

  lemma {:induction false} NumberStops(s: string, after: bool)
    ensures var n := NumberLength(s, after); n < |s| ==> !IsNumberPart(s[n])
  {
    if NumberLength(s, after) > 0 {
      NumberStops(s[1..], IsExponentLetter(s[0]));
    }
  }

  lemma WholeNotIsOperator(s: string)
    ensures s[..IdentifierLength(s)] == "not" ==> OperatorHere("not", s)
  {
    var n := IdentifierLength(s);
    if s[..n] == "not" {
      assert n == 3 && StartsWith(s, "not");
    }
  }

  lemma SoundWord(s: string, src: Laid) returns (f: Form)
    requires At(s, src) && SkipSpace(s) == s && !OperatorHere("not", s) && ParseIdentifier(s).Ok?
    ensures var r := ParseIdentifier(s); Placed(f, NameNode(r.value), PRIMARY, s, r.rest, src)
  {
    var n := IdentifierLength(s);
    f := Word(s[..n]);
    Cut(s, n);
    WholeNotIsOperator(s);
    WordPlaced(s[..n], s[n..], src);
  }

  lemma WordPlaced(name: string, rest: string, src: Laid)
    requires At(name + rest, src) && SkipSpace(name + rest) == name + rest
    requires IsIdentifier(name) && name != "not" && (rest == "" || !IsIdentifierPart(rest[0]))
    ensures Placed(Word(name), NameNode(name), PRIMARY, name + rest, rest, src)
  {
    NamesMean(name);
    NameLast(name);
    Settles(name, name, rest, src);
    WordText(name, src.st, rest);
    Places(Word(name), NameNode(name), PRIMARY, name + rest, rest, src);
  }

  lemma NameLast(name: string)
    requires IsIdentifier(name)
    ensures !IsSpace(name[|name| - 1])
  {
  }

  lemma SoundNumeral(s: string, src: Laid) returns (f: Form)
    requires At(s, src) && SkipSpace(s) == s && IsNumberToken(s) && ParseNumber(s).Ok?
    ensures var r := ParseNumber(s); Placed(f, Lit(r.value), PRIMARY, s, r.rest, src)
  {
    var n := NumberLength(s, false);
    f := Numeral(s[..n]);
    Cut(s, n);
    NumberStops(s, false);
    FloatIsNumeral(s[..n]);
    NumeralPlaced(s[..n], s[n..], src);
  }

  lemma NumeralPlaced(text: string, rest: string, src: Laid)
    requires At(text + rest, src) && SkipSpace(text + rest) == text + rest
    requires IsNumeral(text) && (rest == "" || !IsNumberPart(rest[0]))
    ensures Placed(Numeral(text), Lit(NumberLiteral(text)), PRIMARY, text + rest, rest, src)
  {
    NumeralStarts(text);
    NumeralLast(text);
    Settles(text, text, rest, src);
    NumeralText(text, src.st, rest);
    NumeralFits(text);
    Places(Numeral(text), Lit(NumberLiteral(text)), PRIMARY, text + rest, rest, src);
  }

  lemma NumeralFits(text: string)
    requires IsNumeral(text)
    ensures Fits(Numeral(text), PRIMARY) && Tree(Numeral(text)) == Lit(NumberLiteral(text))
  {
  }

  lemma NumeralLast(text: string)
    requires IsNumeral(text)
    ensures text != "" && !IsSpace(text[|text| - 1])
  {
    var whole, fraction, exponent :| IsNumeralOf(text, whole, fraction, exponent);
    if exponent != "" {
      ExponentIsRead(exponent);
      assert text[|text| - 1] == exponent[|exponent| - 1];
    } else if fraction != "" {
      assert text[|text| - 1] == fraction[|fraction| - 1];
    } else {
      assert text == whole;
    }
  }

  lemma QuoteIsNoSpace(c: char)
    requires IsQuote(c)
    ensures !IsSpace(c) && !Merges("", [c])
  {
  }

  lemma SoundQuotation(s: string, src: Laid) returns (f: Form)
    requires At(s, src) && s != "" && IsQuote(s[0]) && ParseString(s[0], s[1..]).Ok?
    ensures var r := ParseString(s[0], s[1..]); Placed(f, Lit(Text(r.value)), PRIMARY, s, r.rest, src)
  {
    var body := SoundString(s[0], s[1..]);
    f := Quotation(s[0], body);
    assert s == [s[0]] + s[1..];
    QuotationPlaced(s[0], body, ParseString(s[0], s[1..]).rest, src);
  }

  lemma QuotationPlaced(quote: char, body: string, rest: string, src: Laid)
    requires IsQuote(quote) && IsBody(quote, body) && At([quote] + (body + ([quote] + rest)), src)
    ensures Placed(Quotation(quote, body), Lit(Text(Unescaped(body))), PRIMARY, [quote] + (body + ([quote] + rest)), rest, src)
  {
    var s := [quote] + (body + ([quote] + rest));
    QuoteIsNoSpace(quote);
    AtLater(s, 1 + |body|, src);
    assert s[1 + |body|..] == [quote] + rest;
    Settles([quote], "", rest, src);
    QuotationText(quote, body, src.st, rest);
    QuotationFits(quote, body);
    assert SkipSpace(s) == s;
    Places(Quotation(quote, body), Lit(Text(Unescaped(body))), PRIMARY, s, rest, src);
  }

  lemma QuotationFits(quote: char, body: string)
    requires IsQuote(quote) && IsBody(quote, body)
    ensures Fits(Quotation(quote, body), PRIMARY) && Tree(Quotation(quote, body)) == Lit(Text(Unescaped(body)))
  {
  }

  // ── The grammar ───────────────────────────────────────────────────────────

  lemma {:induction false} SoundExpression(s: string, src: Laid) returns (f: Form)
    requires At(s, src) && ParseExpression(s).Ok?
    ensures var r := ParseExpression(s); Placed(f, r.value, 0, s, r.rest, src)
    decreases |s|, 20
  {
    var first := ParseBinary(0, s);
    var test := SoundBinary(0, s, src);
    var t := SkipSpace(first.rest);
    PlacedSkipped(test, first.value, 1, s, first.rest, src);
    if !Starts(t, '?') {
      f := test;
      PlacedLooser(f, first.value, 1, 0, s, t, src);
    } else {
      AtLater(t, 1, src);
      var second := ParseExpression(t[1..]);
      var consequent := SoundExpression(t[1..], src);
      var u := SkipSpace(second.rest);
      PlacedSkipped(consequent, second.value, 0, t[1..], second.rest, src);
      AtLater(u, 1, src);
      var alternate := SoundExpression(u[1..], src);
      f := Chosen(test, consequent, alternate);
      Chooses(test, first.value, s, t, consequent, second.value, u, alternate, ParseExpression(u[1..]).value,
              ParseExpression(u[1..]).rest, src);
    }
  }

  lemma Chooses(test: Form, a: Node, s: string, t: string, consequent: Form, b: Node, u: string, alternate: Form, c: Node,
                rest: string, src: Laid)
    requires Placed(test, a, 1, s, t, src) && Starts(t, '?') && SkipSpace(t) == t
    requires Placed(consequent, b, 0, t[1..], u, src) && Starts(u, ':') && SkipSpace(u) == u
    requires Placed(alternate, c, 0, u[1..], rest, src)
    ensures Placed(Chosen(test, consequent, alternate), Conditional(a, b, c), 0, s, rest, src)
  {
    PlacedText(test, a, 1, s, t, src);
    PlacedText(consequent, b, 0, t[1..], u, src);
    Punctuated('?', t, src);
    Punctuated(':', u, src);
    ChosenText(test, consequent, alternate, src.st, t[1..], u[1..], SkipSpace(rest));
    ChosenFits(test, consequent, alternate);
    Places(Chosen(test, consequent, alternate), Conditional(a, b, c), 0, s, rest, src);
  }

  lemma ChosenFits(test: Form, f: Form, g: Form)
    requires Fits(test, 1) && Fits(f, 0) && Fits(g, 0)
    ensures Fits(Chosen(test, f, g), 0)
    ensures Tree(Chosen(test, f, g)) == Conditional(Tree(test), Tree(f), Tree(g))
  {
  }

  lemma {:induction false} SoundBinary(level: nat, s: string, src: Laid) returns (f: Form)
    requires At(s, src) && level <= LEVELS && ParseBinary(level, s).Ok?
    ensures var r := ParseBinary(level, s); Placed(f, r.value, 1 + level, s, r.rest, src)
    decreases |s|, 10 + LEVELS - level
  {
    if level == LEVELS {
      f := SoundUnary(s, src);
    } else {
      var r := ParseBinary(level + 1, s);
      var left := SoundBinary(level + 1, s, src);
      PlacedLooser(left, r.value, 2 + level, 1 + level, s, r.rest, src);
      f := SoundChain(level, r.value, left, s, r.rest, src);
    }
  }

  lemma {:induction false} SoundChain(level: nat, left: Node, f: Form, start: string, s: string, src: Laid) returns (g: Form)
    requires level < LEVELS && ContinueBinary(level, left, s).Ok? && Placed(f, left, 1 + level, start, s, src)
    ensures var r := ContinueBinary(level, left, s); Placed(g, r.value, 1 + level, start, r.rest, src)
    decreases |s|, 0
  {
    var t := SkipSpace(s);
    var op := MatchOperator(Operators(level), t);
    PlacedSkipped(f, left, 1 + level, start, s, src);
    if op == "" {
      g := f;
    } else {
      AtLater(t, |op|, src);
      var r := ParseBinary(level + 1, t[|op|..]);
      var right := SoundBinary(level + 1, t[|op|..], src);
      Joins(level, op, f, left, start, t, right, r.value, r.rest, src);
      g := SoundChain(level, Infix(op, left, r.value), Joined(op, f, right), start, r.rest, src);
    }
  }

  lemma Joins(level: nat, op: string, f: Form, left: Node, start: string, t: string, g: Form, right: Node, rest: string,
              src: Laid)
    requires level < LEVELS && op in Operators(level) && OperatorHere(op, t) && SkipSpace(t) == t
    requires Placed(f, left, 1 + level, start, t, src) && Placed(g, right, 2 + level, t[|op|..], rest, src)
    ensures Placed(Joined(op, f, g), Infix(op, left, right), 1 + level, start, rest, src)
  {
    LevelIs(op, level);
    FirstCharsOf(level, op);
    Cut(t, |op|);
    WordsEnd(level, op, t);
    Settles(op, op, t[|op|..], src);
    JoinedText(op, f, g, src.st, t[|op|..], SkipSpace(rest));
    JoinedFits(level, op, f, g);
    Places(Joined(op, f, g), Infix(op, left, right), 1 + level, start, rest, src);
  }

  lemma WordsEnd(level: nat, op: string, t: string)
    requires level < LEVELS && op in Operators(level) && OperatorHere(op, t)
    ensures !Merges(op, t[|op|..])
  {
  }

  lemma JoinedFits(level: nat, op: string, f: Form, g: Form)
    requires level < LEVELS && LevelOf(op) == level && Fits(f, 1 + level) && Fits(g, 2 + level)
    ensures Fits(Joined(op, f, g), 1 + level)
    ensures Tree(Joined(op, f, g)) == Infix(op, Tree(f), Tree(g))
  {
  }

  /** How long a prefix operator stands at the head of a text. */
  function PrefixLength(t: string): (n: nat)
    ensures n <= |t|
    ensures n > 0 ==> t[..n] in ["!", "-", "+", "not"]
    ensures t[..n] == "not" && n < |t| ==> !IsIdentifierPart(t[n])
  {
    if t != "" && IsPrefix(t[0]) && !StartsWith(t, "!=") then
      assert t[..1] == [t[0]];
      1
    else if MatchOperator(["not"], t) != "" then 3
    else 0
  }

  lemma UnaryIs(s: string)
    requires ParseUnary(s).Ok?
    ensures var t := SkipSpace(s);
            var n := PrefixLength(t);
            if n == 0 then !OperatorHere("not", t) && ParseUnary(s) == ParsePostfix(t)
            else var r := ParseUnary(t[n..]);
                 r.Ok? && ParseUnary(s) == Ok(Unary(SignMeans(t[..n]), r.value), r.rest)
  {
    var t := SkipSpace(s);
    if t != "" && IsPrefix(t[0]) && !StartsWith(t, "!=") {
      assert t[..1] == [t[0]];
    }
  }

  lemma {:induction false} SoundUnary(s: string, src: Laid) returns (f: Form)
    requires At(s, src) && ParseUnary(s).Ok?
    ensures var r := ParseUnary(s); Placed(f, r.value, UNARY, s, r.rest, src)
    decreases |s|, 9
  {
    var t := SkipSpace(s);
    var n := PrefixLength(t);
    UnaryIs(s);
    SkipTwice(s);
    AtSkipped(s, src);
    if n > 0 {
      AtLater(t, n, src);
      Cut(t, n);
      var r := ParseUnary(t[n..]);
      var operand := SoundUnary(t[n..], src);
      f := Signed(t[..n], operand);
      Signs(t[..n], operand, s, t[n..], r.value, r.rest, src);
    } else {
      f := SoundPostfix(t, src);
      PlacedLooser(f, ParsePostfix(t).value, POSTFIX, UNARY, t, ParsePostfix(t).rest, src);
      PlacedBefore(f, ParsePostfix(t).value, UNARY, s, ParsePostfix(t).rest, src);
    }
  }

  lemma PlacedBefore(f: Form, n: Node, r: nat, s: string, rest: string, src: Laid)
    requires Placed(f, n, r, SkipSpace(s), rest, src)
    ensures Placed(f, n, r, s, rest, src)
  {
    SkipTwice(s);
  }

  lemma Signs(sign: string, operand: Form, s: string, u: string, n: Node, rest: string, src: Laid)
    requires sign in ["!", "-", "+", "not"] && SkipSpace(s) == sign + u && At(sign + u, src)
    requires sign == "not" ==> u == "" || !IsIdentifierPart(u[0])
    requires Placed(operand, n, UNARY, u, rest, src)
    ensures Placed(Signed(sign, operand), Unary(SignMeans(sign), n), UNARY, s, rest, src)
  {
    Settles(sign, sign, u, src);
    SignedText(sign, operand, src.st, u, SkipSpace(rest));
    SignedFits(sign, operand);
  }

  lemma SignedFits(sign: string, operand: Form)
    requires sign in ["!", "-", "+", "not"] && Fits(operand, UNARY)
    ensures Fits(Signed(sign, operand), UNARY)
    ensures Tree(Signed(sign, operand)) == Unary(SignMeans(sign), Tree(operand))
  {
  }

  lemma {:induction false} SoundPostfix(s: string, src: Laid) returns (f: Form)
    requires At(s, src) && SkipSpace(s) == s && !OperatorHere("not", s) && ParsePostfix(s).Ok?
    ensures var r := ParsePostfix(s); Placed(f, r.value, POSTFIX, s, r.rest, src)
    decreases |s|, 8
  {
    var r := ParsePrimary(s);
    var first := SoundPrimary(s, src);
    PlacedLooser(first, r.value, PRIMARY, POSTFIX, s, r.rest, src);
    f := SoundReads(r.value, first, s, r.rest, src);
  }

  lemma {:induction false} SoundReads(node: Node, f: Form, start: string, s: string, src: Laid) returns (g: Form)
    requires ContinuePostfix(node, s).Ok? && Placed(f, node, POSTFIX, start, s, src)
    ensures var r := ContinuePostfix(node, s); Placed(g, r.value, POSTFIX, start, r.rest, src)
    decreases |s|, 0, 1
  {
    var t := SkipSpace(s);
    PlacedSkipped(f, node, POSTFIX, start, s, src);
    if !PostfixHere(t) {
      g := f;
    } else {
      var r := ParseOnePostfix(node, t);
      var one := SoundOnePostfix(node, f, start, t, src);
      g := SoundReads(r.value, one, start, r.rest, src);
    }
  }

  lemma {:induction false} SoundOnePostfix(node: Node, f: Form, start: string, t: string, src: Laid) returns (g: Form)
    requires PostfixHere(t) && ParseOnePostfix(node, t).Ok? && Placed(f, node, POSTFIX, start, t, src)
    requires SkipSpace(t) == t
    ensures var r := ParseOnePostfix(node, t); Placed(g, r.value, POSTFIX, start, r.rest, src)
    decreases |t|, 0, 0
  {
    AtLater(t, 1, src);
    if t[0] == '.' {
      g := Dots(node, f, start, t, src);
    } else if t[0] == '[' {
      var r := ParseExpression(t[1..]);
      var key := SoundExpression(t[1..], src);
      PlacedSkipped(key, r.value, 0, t[1..], r.rest, src);
      g := Keyed(f, key);
      Keys(f, node, start, t, key, r.value, SkipSpace(r.rest), src);
    } else {
      var r := ParseArguments(')', t[1..]);
      var args := SoundArguments(')', t[1..], src);
      g := Applied(f, args);
      Applies(f, node, start, t, args, r.value, r.rest, src);
    }
  }

  lemma Dots(node: Node, f: Form, start: string, t: string, src: Laid) returns (g: Form)
    requires Starts(t, '.') && SkipSpace(t) == t && Placed(f, node, POSTFIX, start, t, src) && ParseIdentifier(t[1..]).Ok?
    ensures var r := ParseIdentifier(t[1..]); Placed(g, Member(node, r.value), POSTFIX, start, r.rest, src)
  {
    var u := SkipSpace(t[1..]);
    var n := IdentifierLength(u);
    g := Dotted(f, u[..n]);
    Cut(u, n);
    DotsTo(f, node, start, t, u[..n], u[n..], src);
  }

  lemma DotsTo(f: Form, node: Node, start: string, t: string, name: string, rest: string, src: Laid)
    requires Starts(t, '.') && SkipSpace(t) == t && Placed(f, node, POSTFIX, start, t, src)
    requires SkipSpace(t[1..]) == name + rest && IsIdentifier(name) && (rest == "" || !IsIdentifierPart(rest[0]))
    ensures Placed(Dotted(f, name), Member(node, name), POSTFIX, start, rest, src)
  {
    PlacedText(f, node, POSTFIX, start, t, src);
    Punctuated('.', t, src);
    AtSkipped(t[1..], src);
    NameLast(name);
    Settles(name, name, rest, src);
    DottedText(f, name, src.st, t[1..], rest);
    DottedFits(f, name);
    Places(Dotted(f, name), Member(node, name), POSTFIX, start, rest, src);
  }

  lemma DottedFits(f: Form, name: string)
    requires Fits(f, POSTFIX) && IsIdentifier(name)
    ensures Fits(Dotted(f, name), POSTFIX)
    ensures Tree(Dotted(f, name)) == Member(Tree(f), name)
  {
  }

  lemma Keys(f: Form, node: Node, start: string, t: string, key: Form, k: Node, u: string, src: Laid)
    requires Starts(t, '[') && SkipSpace(t) == t && Placed(f, node, POSTFIX, start, t, src)
    requires Placed(key, k, 0, t[1..], u, src) && Starts(u, ']') && SkipSpace(u) == u
    ensures Placed(Keyed(f, key), Index(node, k), POSTFIX, start, u[1..], src)
  {
    Punctuated('[', t, src);
    Punctuated(']', u, src);
    KeyedText(f, key, src.st, t[1..], u[1..]);
    KeyedFits(f, key);
    Places(Keyed(f, key), Index(node, k), POSTFIX, start, u[1..], src);
  }

  lemma KeyedFits(f: Form, key: Form)
    requires Fits(f, POSTFIX) && Fits(key, 0)
    ensures Fits(Keyed(f, key), POSTFIX)
    ensures Tree(Keyed(f, key)) == Index(Tree(f), Tree(key))
  {
  }

  lemma Applies(f: Form, node: Node, start: string, t: string, args: seq<Form>, ns: seq<Node>, rest: string, src: Laid)
    requires Starts(t, '(') && SkipSpace(t) == t && Placed(f, node, POSTFIX, start, t, src)
    requires PlacedList(args, ns, ')', t[1..], rest, src)
    ensures Placed(Applied(f, args), Call(node, ns), POSTFIX, start, rest, src)
  {
    assert t == "(" + t[1..] && [')'] + rest == ")" + rest;
    Settles("(", "(", t[1..], src);
    Settles(")", ")", rest, src);
    AppliedText(f, args, src.st, t[1..], rest);
    AppliedFits(f, args);
  }

  lemma AppliedFits(f: Form, args: seq<Form>)
    requires Fits(f, POSTFIX) && forall i | 0 <= i < |args| :: Fits(args[i], 0)
    ensures Fits(Applied(f, args), POSTFIX)
    ensures Tree(Applied(f, args)) == Call(Tree(f), Trees(args))
  {
    AllFit(args);
    AppliedReads(f, args);
  }

  lemma AppliedReads(f: Form, args: seq<Form>)
    requires Fits(f, POSTFIX) && (forall i | 0 <= i < |args| :: Spelled(args[i]))
    requires forall i | 0 <= i < |args| :: Readable(args[i], 0)
    ensures Spelled(Applied(f, args)) && Readable(Applied(f, args), POSTFIX)
  {
  }

  lemma {:induction false} SoundArguments(closing: char, s: string, src: Laid) returns (fs: seq<Form>)
    requires At(s, src) && ParseArguments(closing, s).Ok?
    ensures var r := ParseArguments(closing, s);
            PlacedList(fs, r.value, closing, s, r.rest, src)
    decreases |s|, 30
  {
    var t := SkipSpace(s);
    SkipTwice(s);
    AtSkipped(s, src);
    if Starts(t, closing) {
      fs := [];
      assert t == [closing] + t[1..];
      AtLater(t, 1, src);
    } else {
      var r := ContinueArguments(closing, [], t);
      fs := SoundList(closing, [], t, src);
      assert [] + Trees(fs) == Trees(fs);
    }
  }

  lemma {:induction false} SoundList(closing: char, done: seq<Node>, s: string, src: Laid) returns (fs: seq<Form>)
    requires At(s, src) && ContinueArguments(closing, done, s).Ok?
    ensures var r := ContinueArguments(closing, done, s);
            && fs != [] && r.value == done + Trees(fs)
            && PlacedList(fs, Trees(fs), closing, s, r.rest, src)
    decreases |s|, 25
  {
    var first := ParseExpression(s);
    var f := SoundExpression(s, src);
    var t := SkipSpace(first.rest);
    PlacedSkipped(f, first.value, 0, s, first.rest, src);
    AtLater(t, 1, src);
    if Starts(t, ',') {
      var more := SoundList(closing, done + [first.value], t[1..], src);
      fs := [f] + more;
      Regroup(done, [first.value], Trees(more));
      ListGoesOn(f, first.value, more, closing, s, t, ContinueArguments(closing, done, s).rest, src);
    } else {
      fs := [f];
      assert t == [closing] + t[1..];
      assert Trees(fs) == [first.value];
    }
  }

  lemma ListGoesOn(f: Form, n: Node, more: seq<Form>, closing: char, s: string, t: string, rest: string, src: Laid)
    requires Placed(f, n, 0, s, t, src) && Starts(t, ',') && SkipSpace(t) == t && more != []
    requires PlacedList(more, Trees(more), closing, t[1..], rest, src)
    ensures PlacedList([f] + more, Trees([f] + more), closing, s, rest, src)
    ensures Trees([f] + more) == [n] + Trees(more)
  {
    PlacedText(f, n, 0, s, t, src);
    Punctuated(',', t, src);
    ListText(f, more, src.st, t[1..], [closing] + rest);
    OneMoreFits(f, more);
    TreesOf(f, more);
  }

  lemma OneMoreFits(f: Form, more: seq<Form>)
    requires Fits(f, 0) && forall i | 0 <= i < |more| :: Fits(more[i], 0)
    ensures forall i | 0 <= i < |[f] + more| :: Fits(([f] + more)[i], 0)
  {
  }

  lemma TreesOf(f: Form, more: seq<Form>)
    ensures Trees([f] + more) == [Tree(f)] + Trees(more)
  {
    assert ([f] + more)[1..] == more;
  }

  lemma {:induction false} SoundPrimary(s: string, src: Laid) returns (f: Form)
    requires At(s, src) && SkipSpace(s) == s && !OperatorHere("not", s) && ParsePrimary(s).Ok?
    ensures var r := ParsePrimary(s); Placed(f, r.value, PRIMARY, s, r.rest, src)
    decreases |s|, 7
  {
    AtLater(s, 1, src);
    if s[0] == '(' {
      var r := ParseExpression(s[1..]);
      var inner := SoundExpression(s[1..], src);
      PlacedSkipped(inner, r.value, 0, s[1..], r.rest, src);
      f := Parens(inner);
      Encloses(inner, r.value, s, SkipSpace(r.rest), src);
    } else if s[0] == '[' {
      var r := ParseArguments(']', s[1..]);
      var items := SoundArguments(']', s[1..], src);
      f := Listed(items);
      Lists(items, r.value, s, r.rest, src);
    } else if IsQuote(s[0]) {
      f := SoundQuotation(s, src);
    } else if IsNumberToken(s) {
      f := SoundNumeral(s, src);
    } else {
      f := SoundWord(s, src);
    }
  }

  lemma Encloses(inner: Form, n: Node, s: string, u: string, src: Laid)
    requires Starts(s, '(') && SkipSpace(s) == s && At(s, src)
    requires Placed(inner, n, 0, s[1..], u, src) && Starts(u, ')') && SkipSpace(u) == u
    ensures Placed(Parens(inner), n, PRIMARY, s, u[1..], src)
  {
    Punctuated('(', s, src);
    Punctuated(')', u, src);
    ParensText(inner, src.st, s[1..], u[1..]);
    ParensFits(inner);
    Places(Parens(inner), n, PRIMARY, s, u[1..], src);
  }

  lemma ParensFits(inner: Form)
    requires Fits(inner, 0)
    ensures Fits(Parens(inner), PRIMARY)
    ensures Tree(Parens(inner)) == Tree(inner)
  {
  }

  lemma Lists(items: seq<Form>, ns: seq<Node>, s: string, rest: string, src: Laid)
    requires Starts(s, '[') && SkipSpace(s) == s && At(s, src)
    requires PlacedList(items, ns, ']', s[1..], rest, src)
    ensures Placed(Listed(items), Array(ns), PRIMARY, s, rest, src)
  {
    assert s == "[" + s[1..] && [']'] + rest == "]" + rest;
    Settles("[", "[", s[1..], src);
    Settles("]", "]", rest, src);
    ListedText(items, src.st, s[1..], rest);
    ListedFits(items);
  }

  lemma AllFit(fs: seq<Form>)
    requires forall i | 0 <= i < |fs| :: Fits(fs[i], 0)
    ensures forall i | 0 <= i < |fs| :: Spelled(fs[i])
    ensures forall i | 0 <= i < |fs| :: Readable(fs[i], 0)
  {
    forall i | 0 <= i < |fs|
      ensures Spelled(fs[i]) && Readable(fs[i], 0)
    {
      assert Fits(fs[i], 0);
    }
  }

  lemma ListedFits(items: seq<Form>)
    requires forall i | 0 <= i < |items| :: Fits(items[i], 0)
    ensures Fits(Listed(items), PRIMARY) && Tree(Listed(items)) == Array(Trees(items))
  {
    AllFit(items);
    ListedReads(items);
  }

  lemma ListedReads(items: seq<Form>)
    requires forall i | 0 <= i < |items| :: Spelled(items[i])
    requires forall i | 0 <= i < |items| :: Readable(items[i], 0)
    ensures Spelled(Listed(items)) && Readable(Listed(items), PRIMARY)
  {
  }

  // ── What is accepted ──────────────────────────────────────────────────────

  /** The text lays out a form of the language that stands for the tree. */
  ghost predicate IsTextOf(source: string, n: Node) {
    exists f :: Spelled(f) && Readable(f, 0) && Tree(f) == n && LaysOut(source, f)
  }

  lemma AcceptedIsLaidOut(source: string)
    requires Parse(source).Ok?
    ensures IsTextOf(source, Parse(source).value)
  {
    var src := Laid(source, LayoutOf(source));
    LayoutIsLaid(source);
    SkippedEnd(source, source);
    SkipTwice(source);
    var f := SoundExpression(SkipSpace(source), src);
    PlacedWhole(source, f, Parse(source).value);
  }

  lemma PlacedWhole(source: string, f: Form, n: Node)
    requires Fits(f, 0) && Tree(f) == n && Written(f, LayoutOf(source), "") == SkipSpace(source)
    ensures IsTextOf(source, n)
  {
    var lead := source[..|source| - |SkipSpace(source)|];
    Skipped(source);
    Cut(source, |lead|);
    assert IsLayout(source, f, LayoutOf(source), lead);
    assert LaysOut(source, f);
  }

  /** Parsing gives a tree exactly for the texts of that tree. */
  lemma ParsesExactly(source: string, n: Node)
    ensures Parse(source) == Ok(n, "") <==> IsTextOf(source, n)
  {
    if Parse(source).Ok? {
      AcceptedIsLaidOut(source);
    }
    if IsTextOf(source, n) {
      var f :| Spelled(f) && Readable(f, 0) && Tree(f) == n && LaysOut(source, f);
      var st, lead :| IsLayout(source, f, st, lead);
      ParseUndoesWriting(f, st, lead);
    }
  }

  /** And everything else is refused: a text is accepted exactly when it lays out
      some form of the language. */
  lemma AcceptsExactly(source: string)
    ensures Parse(source).Ok? <==> exists f :: Spelled(f) && Readable(f, 0) && LaysOut(source, f)
  {
    if Parse(source).Ok? {
      AcceptedIsLaidOut(source);
      var f :| Spelled(f) && Readable(f, 0) && Tree(f) == Parse(source).value && LaysOut(source, f);
    }
    forall f | Spelled(f) && Readable(f, 0) && LaysOut(source, f)
      ensures Parse(source).Ok?
    {
      ParsesExactly(source, Tree(f));
      assert IsTextOf(source, Tree(f));
    }
  }

  /** No text lays out forms of two trees. */
  lemma TextsAreUnambiguous(source: string, f: Form, g: Form)
    requires Spelled(f) && Readable(f, 0) && LaysOut(source, f)
    requires Spelled(g) && Readable(g, 0) && LaysOut(source, g)
    ensures Tree(f) == Tree(g)
  {
    assert IsTextOf(source, Tree(f)) && IsTextOf(source, Tree(g));
    ParsesExactly(source, Tree(f));
    ParsesExactly(source, Tree(g));
  }
}
