/** Printing trees as forms, what printing and parsing make of each other, and
    which operators bind tighter. */
module ExpressionPrinting {
  import opened Strings
  import opened ExpressionTree
  import opened ExpressionForms
  import opened ExpressionGrammar
  import opened ExpressionRoundTrip
  import opened ExpressionSoundness

  // ── Trees of the language ─────────────────────────────────────────────────

  /** A numeral that is not a whole number small enough to be stored as one. */
  ghost predicate IsDecimalSpelling(s: string) { IsNumeral(s) && NumberLiteral(s) == Decimal(s) }

  ghost predicate WritableLiteral(v: Literal) {
    match v
    case Integer(n) => n < EXACT_INTEGERS
    case Decimal(s) => IsDecimalSpelling(s)
    case _ => true
  }

  /** Every tree the dialect can express: its names are identifiers, its
      operators are in the table. */
  ghost predicate Writable(n: Node) {
    match n
    case Lit(v) => WritableLiteral(v)
    case Ident(name) => IsIdentifier(name) && !IsReserved(name)
    case Member(o, name) => Writable(o) && IsIdentifier(name)
    case Index(o, k) => Writable(o) && Writable(k)
    case Call(c, args) => Writable(c) && forall i | 0 <= i < |args| :: Writable(args[i])
    case Array(items) => forall i | 0 <= i < |items| :: Writable(items[i])
    case Unary(op, x) => op in ["!", "-", "+"] && Writable(x)
    case Infix(op, l, r) => LevelOf(op) < LEVELS && Writable(l) && Writable(r)
    case Conditional(t, c, a) => Writable(t) && Writable(c) && Writable(a)
  }

  ghost predicate Foreign(n: Node) { !Writable(n) }

  // ── Printing ──────────────────────────────────────────────────────────────

  /** Parentheses around every part or only where they must be, the quotes of
      texts, and whether negation is spelled "not". */
  datatype Dress = Dress(all: bool, quote: char, wordNot: bool)

  predicate IsDress(d: Dress) { IsQuote(d.quote) }

  /** The quote and the backslash are escaped; everything else stands for itself. */
  function EscapedBody(quote: char, s: string): string {
    if s == "" then ""
    else (if s[0] == quote || s[0] == '\\' then ['\\', s[0]] else [s[0]]) + EscapedBody(quote, s[1..])
  }

  function LiteralForm(v: Literal, d: Dress): Form {
    match v
    case Null => Word("null")
    case Bool(b) => Word(if b then "true" else "false")
    case Integer(n) => Numeral(Digits(n))
    case Decimal(spelling) => Numeral(spelling)
    case Text(s) => Quotation(d.quote, EscapedBody(d.quote, s))
  }

  /** A tree for a place that wants rank `r`. */
  function Dressed(n: Node, r: nat, d: Dress): Form
    decreases n
  {
    var f := DressedParts(n, d);
    if d.all || Rank(f) < r then Parens(f) else f
  }

  function DressedParts(n: Node, d: Dress): Form
    decreases n, 0
  {
    match n
    case Lit(v) => LiteralForm(v, d)
    case Ident(name) => Word(name)
    case Member(o, name) => Dotted(Dressed(o, POSTFIX, d), name)
    case Index(o, k) => Keyed(Dressed(o, POSTFIX, d), Dressed(k, 0, d))
    case Call(c, args) => Applied(Dressed(c, POSTFIX, d), DressedAll(args, d))
    case Array(items) => Listed(DressedAll(items, d))
    case Unary(op, x) => Signed(if op == "!" && d.wordNot then "not" else op, Dressed(x, UNARY, d))
    case Infix(op, l, right) => Joined(op, Dressed(l, 1 + LevelOf(op), d), Dressed(right, 2 + LevelOf(op), d))
    case Conditional(t, c, a) => Chosen(Dressed(t, 1, d), Dressed(c, 0, d), Dressed(a, 0, d))
  }

  function DressedAll(ns: seq<Node>, d: Dress): (fs: seq<Form>)
    ensures |fs| == |ns|
    decreases ns
  {
    if ns == [] then [] else [Dressed(ns[0], 0, d)] + DressedAll(ns[1..], d)
  }

  // ── Printed forms stand for their trees ───────────────────────────────────

  lemma {:induction false} BodyIsOf(quote: char, s: string)
    requires IsQuote(quote)
    ensures var body := EscapedBody(quote, s); IsBody(quote, body) && Unescaped(body) == s
  {
    if s != "" {
      var tail := EscapedBody(quote, s[1..]);
      BodyIsOf(quote, s[1..]);
      assert s == [s[0]] + s[1..];
      if s[0] == quote || s[0] == '\\' {
        assert (['\\', s[0]] + tail)[2..] == tail;
        assert UnescapedChar(s[0]) == s[0];
      } else {
        assert ([s[0]] + tail)[1..] == tail;
      }
    }
  }

  lemma LiteralFits(v: Literal, d: Dress)
    requires WritableLiteral(v) && IsDress(d)
    ensures var f := LiteralForm(v, d); Fits(f, PRIMARY) && Tree(f) == Lit(v)
  {
    match v
    case Integer(n) => DigitsAreNumeral(Digits(n));
    case Text(s) => BodyIsOf(d.quote, s);
    case _ =>
  }

  lemma WordFits(name: string)
    requires IsIdentifier(name) && !IsReserved(name)
    ensures Fits(Word(name), PRIMARY) && Tree(Word(name)) == Ident(name)
  {
  }

  predicate Misread(f: Form, n: Node) { Tree(f) != n }

  /** The form stands for the tree, in a place of rank `r`. */
  ghost predicate Prints(f: Form, r: nat, n: Node) { !Misfits(f, r) && !Misread(f, n) }

  /** A printed tree fits its place and stands for that tree. */
  lemma {:induction false} DressedFits(n: Node, r: nat, d: Dress)
    requires !Foreign(n) && IsDress(d) && r <= PRIMARY
    ensures Prints(Dressed(n, r, d), r, n)
    decreases n, 1
  {
    PartsFit(n, d);
    PlaceFits(DressedParts(n, d), r, n);
  }

  lemma PlaceFits(f: Form, r: nat, n: Node)
    requires Prints(f, Rank(f), n) && r <= PRIMARY
    ensures Prints(Parens(f), r, n) && (r <= Rank(f) ==> Prints(f, r, n))
  {
    FitsLooser(f, Rank(f), if Rank(f) < r then 0 else r);
    FitsLooser(f, Rank(f), 0);
    ParensFits(f);
    FitsLooser(Parens(f), PRIMARY, r);
  }

  lemma {:induction false} PartsFit(n: Node, d: Dress)
    requires !Foreign(n) && IsDress(d)
    ensures Prints(DressedParts(n, d), Rank(DressedParts(n, d)), n)
    decreases n, 0
  {
    match n
    case Lit(v) =>
      LiteralFits(v, d);
      FitsLooser(LiteralForm(v, d), PRIMARY, Rank(LiteralForm(v, d)));
    case Ident(name) => WordFits(name);
    case Member(o, name) =>
      DressedFits(o, POSTFIX, d);
      DottedFits(Dressed(o, POSTFIX, d), name);
    case Index(o, k) =>
      DressedFits(o, POSTFIX, d);
      DressedFits(k, 0, d);
      KeyedFits(Dressed(o, POSTFIX, d), Dressed(k, 0, d));
    case Call(c, args) =>
      DressedFits(c, POSTFIX, d);
      AllDressedFit(args, d);
      AppliedFits(Dressed(c, POSTFIX, d), DressedAll(args, d));
    case Array(items) =>
      AllDressedFit(items, d);
      ListedFits(DressedAll(items, d));
    case Unary(op, x) =>
      DressedFits(x, UNARY, d);
      SignedFits(if op == "!" && d.wordNot then "not" else op, Dressed(x, UNARY, d));
    case Infix(op, l, right) =>
      DressedFits(l, 1 + LevelOf(op), d);
      DressedFits(right, 2 + LevelOf(op), d);
      JoinedFits(LevelOf(op), op, Dressed(l, 1 + LevelOf(op), d), Dressed(right, 2 + LevelOf(op), d));
    case Conditional(t, c, a) =>
      DressedFits(t, 1, d);
      DressedFits(c, 0, d);
      DressedFits(a, 0, d);
      ChosenFits(Dressed(t, 1, d), Dressed(c, 0, d), Dressed(a, 0, d));
  }

  lemma {:induction false} AllDressedFit(ns: seq<Node>, d: Dress)
    requires (forall i | 0 <= i < |ns| :: !Foreign(ns[i])) && IsDress(d)
    ensures Trees(DressedAll(ns, d)) == ns && forall i | 0 <= i < |ns| :: Fits(DressedAll(ns, d)[i], 0)
    decreases ns, 0
  {
    if ns != [] {
      DressedFits(ns[0], 0, d);
      AllDressedFit(ns[1..], d);
      TreesOf(Dressed(ns[0], 0, d), DressedAll(ns[1..], d));
    }
  }

  /** Every tree, written with full parentheses or with only those the table
      requires, in either quotes and with either negation, is what parsing that
      text returns. */
  lemma ParseUndoesPrinting(n: Node, st: Style, d: Dress)
    requires Writable(n) && IsStyle(st) && IsDress(d)
    ensures Parse(Written(Dressed(n, 0, d), st, "")) == Ok(n, "")
  {
    var f := Dressed(n, 0, d);
    DressedFits(n, 0, d);
    assert "" + Written(f, st, "") == Written(f, st, "");
    ParseUndoesWriting(f, st, "");
  }

  // ── What the parser returns can be printed again ──────────────────────────

  lemma WordIsWritable(name: string)
    requires IsIdentifier(name) && name != "not"
    ensures !Foreign(Tree(Word(name)))
  {
  }

  lemma {:induction false} TreeIsWritable(f: Form)
    requires Spelled(f)
    ensures !Foreign(Tree(f))
    decreases f, 1
  {
    match f
    case Word(name) => WordIsWritable(name);
    case Dotted(o, _) => TreeIsWritable(o);
    case Keyed(o, k) => TreeIsWritable(o); TreeIsWritable(k);
    case Applied(c, args) => TreeIsWritable(c); TreesAreWritable(args);
    case Listed(items) => TreesAreWritable(items);
    case Signed(_, x) => TreeIsWritable(x);
    case Joined(_, l, r) => TreeIsWritable(l); TreeIsWritable(r);
    case Chosen(t, c, a) => TreeIsWritable(t); TreeIsWritable(c); TreeIsWritable(a);
    case Parens(x) => TreeIsWritable(x);
    case _ =>
  }

  lemma {:induction false} TreesAreWritable(fs: seq<Form>)
    requires forall i | 0 <= i < |fs| :: Spelled(fs[i])
    ensures forall i | 0 <= i < |fs| :: Writable(Trees(fs)[i])
    decreases fs, 0
  {
    if fs != [] {
      TreeIsWritable(fs[0]);
      TreesAreWritable(fs[1..]);
    }
  }

  /** Parsing gives exactly the trees the dialect can express. */
  lemma ExpressedExactly(n: Node)
    ensures Writable(n) <==> exists source :: Parse(source) == Ok(n, "")
  {
    if Writable(n) {
      ParseUndoesPrinting(n, COMPACT, Dress(false, '"', false));
    }
    forall source | Parse(source) == Ok(n, "")
      ensures Writable(n)
    {
      ParsedIsWritable(source);
    }
  }

  lemma ParsedIsWritable(source: string)
    requires Parse(source).Ok?
    ensures Writable(Parse(source).value)
  {
    AcceptedIsLaidOut(source);
    var f :| Spelled(f) && Readable(f, 0) && Tree(f) == Parse(source).value && LaysOut(source, f);
    TreeIsWritable(f);
  }

  /** Whatever source is accepted, printing its tree in any style and parsing
      that gives the same tree again. */
  lemma ParsedPrintsBack(source: string, st: Style, d: Dress)
    requires Parse(source).Ok? && IsStyle(st) && IsDress(d)
    ensures Parse(Written(Dressed(Parse(source).value, 0, d), st, "")) == Parse(source)
  {
    ParsedIsWritable(source);
    ParseUndoesPrinting(Parse(source).value, st, d);
  }

  /** A layout with no white space but what keeps tokens apart. */
  const COMPACT := Style((_: string) => "")

  lemma CompactSum()
    ensures Written(Joined("+", Dotted(Word("a"), "b"), Word("c")), COMPACT, "") == "a.b+c"
  {
    assert Written(Word("c"), COMPACT, "") == "c";
    assert Then(COMPACT, "+", "c") == "+c";
    assert Then(COMPACT, ".", Then(COMPACT, "b", "+c")) == ".b+c";
    assert Written(Word("a"), COMPACT, ".b+c") == "a.b+c";
  }

  lemma CompactWords()
    ensures Written(Joined("and", Word("a"), Word("b")), COMPACT, "") == "a and b"
  {
    assert Written(Word("b"), COMPACT, "") == "b";
    assert Then(COMPACT, "and", "b") == "and b";
    assert Written(Word("a"), COMPACT, "and b") == "a and b";
  }

  // ── What binds tighter ────────────────────────────────────────────────────

  predicate MisparsedAs(text: string, n: Node) { Parse(text) != Ok(n, "") }

  /** The text parses, to its end, to the tree. */
  predicate ParsesAs(text: string, n: Node) { !MisparsedAs(text, n) }

  /** The text of three operands with operators between them. */
  function FlatText(a: Form, op: string, b: Form, op': string, c: Form, st: Style): string {
    Written(a, st, Then(st, op, Written(b, st, Then(st, op', Written(c, st, "")))))
  }

  /** Two operators in a row, over operands that hold none of their own: the one
      further down the table takes the operand between them, and of two of one
      level the first. */
  lemma TighterTakesTheMiddle(a: Form, op: string, b: Form, op': string, c: Form, st: Style)
    requires Fits(a, UNARY) && Fits(b, UNARY) && Fits(c, UNARY) && IsStyle(st)
    requires LevelOf(op) < LEVELS && LevelOf(op') < LEVELS
    ensures LevelOf(op) < LevelOf(op') ==>
              ParsesAs(FlatText(a, op, b, op', c, st), Infix(op, Tree(a), Infix(op', Tree(b), Tree(c))))
    ensures LevelOf(op') <= LevelOf(op) ==>
              ParsesAs(FlatText(a, op, b, op', c, st), Infix(op', Infix(op, Tree(a), Tree(b)), Tree(c)))
  {
    if LevelOf(op) < LevelOf(op') {
      LaterFits(a, op, b, op', c);
      ParsesForm(Joined(op, a, Joined(op', b, c)), 1 + LevelOf(op), st);
      LaterText(a, op, b, op', c, st);
    } else {
      FirstFits(a, op, b, op', c);
      ParsesForm(Joined(op', Joined(op, a, b), c), 1 + LevelOf(op'), st);
      FirstText(a, op, b, op', c, st);
    }
  }

  lemma LaterText(a: Form, op: string, b: Form, op': string, c: Form, st: Style)
    ensures Written(Joined(op, a, Joined(op', b, c)), st, "") == FlatText(a, op, b, op', c, st)
  {
    WrittenJoined(op', b, c, st, "");
    WrittenJoined(op, a, Joined(op', b, c), st, "");
  }

  lemma FirstText(a: Form, op: string, b: Form, op': string, c: Form, st: Style)
    ensures Written(Joined(op', Joined(op, a, b), c), st, "") == FlatText(a, op, b, op', c, st)
  {
    WrittenJoined(op', Joined(op, a, b), c, st, "");
    WrittenJoined(op, a, b, st, Then(st, op', Written(c, st, "")));
  }

  lemma LaterFits(a: Form, op: string, b: Form, op': string, c: Form)
    requires Fits(a, UNARY) && Fits(b, UNARY) && Fits(c, UNARY) && LevelOf(op) < LevelOf(op') < LEVELS
    ensures Fits(Joined(op, a, Joined(op', b, c)), 1 + LevelOf(op))
    ensures Tree(Joined(op, a, Joined(op', b, c))) == Infix(op, Tree(a), Infix(op', Tree(b), Tree(c)))
  {
    var l, l' := LevelOf(op), LevelOf(op');
    FitsLooser(b, UNARY, 1 + l');
    FitsLooser(c, UNARY, 2 + l');
    JoinedFits(l', op', b, c);
    FitsLooser(Joined(op', b, c), 1 + l', 2 + l);
    FitsLooser(a, UNARY, 1 + l);
    JoinedFits(l, op, a, Joined(op', b, c));
  }

  lemma FirstFits(a: Form, op: string, b: Form, op': string, c: Form)
    requires Fits(a, UNARY) && Fits(b, UNARY) && Fits(c, UNARY) && LevelOf(op') <= LevelOf(op) < LEVELS
    ensures Fits(Joined(op', Joined(op, a, b), c), 1 + LevelOf(op'))
    ensures Tree(Joined(op', Joined(op, a, b), c)) == Infix(op', Infix(op, Tree(a), Tree(b)), Tree(c))
  {
    var l, l' := LevelOf(op), LevelOf(op');
    FitsLooser(a, UNARY, 1 + l);
    FitsLooser(b, UNARY, 2 + l);
    JoinedFits(l, op, a, b);
    FitsLooser(Joined(op, a, b), 1 + l, 1 + l');
    FitsLooser(c, UNARY, 2 + l');
    JoinedFits(l', op', Joined(op, a, b), c);
  }

  lemma WrittenJoined(op: string, a: Form, b: Form, st: Style, rest: string)
    ensures Written(Joined(op, a, b), st, rest) == Written(a, st, Then(st, op, Written(b, st, rest)))
  {
  }

  lemma ParsesForm(f: Form, r: nat, st: Style)
    requires Fits(f, r) && IsStyle(st)
    ensures ParsesAs(Written(f, st, ""), Tree(f))
  {
    FitsLooser(f, r, 0);
    assert "" + Written(f, st, "") == Written(f, st, "");
    ParseUndoesWriting(f, st, "");
  }

  /** The table: a level for each operator, the arithmetic ones tightest. */
  lemma TableOfOperators()
    ensures LevelOf("||") == LevelOf("or") == 0
    ensures LevelOf("&&") == LevelOf("and") == 1
    ensures LevelOf("==") == LevelOf("!=") == LevelOf("===") == LevelOf("!==") == 2
    ensures LevelOf("<") == LevelOf("<=") == LevelOf(">") == LevelOf(">=") == 3
    ensures LevelOf("+") == LevelOf("-") == 4
    ensures LevelOf("*") == LevelOf("/") == LevelOf("%") == 5
  {
    LevelIs("||", 0); LevelIs("or", 0); LevelIs("&&", 1); LevelIs("and", 1);
    LevelIs("==", 2); LevelIs("!=", 2); LevelIs("===", 2); LevelIs("!==", 2);
    LevelIs("<", 3); LevelIs("<=", 3); LevelIs(">", 3); LevelIs(">=", 3);
    LevelIs("+", 4); LevelIs("-", 4); LevelIs("*", 5); LevelIs("/", 5); LevelIs("%", 5);
  }

  /** A prefix operator takes less than any infix one: what it stands in front
      of, with its member reads, and no more. */
  lemma PrefixTakesItsOperand(sign: string, a: Form, name: string, op: string, b: Form, st: Style)
    requires sign in ["!", "-", "+", "not"] && Fits(a, POSTFIX) && IsIdentifier(name) && Fits(b, UNARY)
    requires LevelOf(op) < LEVELS && IsStyle(st)
    ensures ParsesAs(Then(st, sign, Written(a, st, Then(st, ".", Then(st, name, Then(st, op, Written(b, st, "")))))),
                     Infix(op, Unary(SignMeans(sign), Member(Tree(a), name)), Tree(b)))
  {
    var read := Dotted(a, name);
    PrefixedFits(sign, a, name, op, b);
    ParsesForm(Joined(op, Signed(sign, read), b), 1 + LevelOf(op), st);
    WrittenJoined(op, Signed(sign, read), b, st, "");
    WrittenPrefixed(sign, a, name, st, Then(st, op, Written(b, st, "")));
  }

  lemma WrittenPrefixed(sign: string, a: Form, name: string, st: Style, rest: string)
    ensures Written(Signed(sign, Dotted(a, name)), st, rest) ==
            Then(st, sign, Written(a, st, Then(st, ".", Then(st, name, rest))))
  {
  }

  lemma PrefixedFits(sign: string, a: Form, name: string, op: string, b: Form)
    requires sign in ["!", "-", "+", "not"] && Fits(a, POSTFIX) && IsIdentifier(name) && Fits(b, UNARY) && LevelOf(op) < LEVELS
    ensures var f := Joined(op, Signed(sign, Dotted(a, name)), b);
            Fits(f, 1 + LevelOf(op)) && Tree(f) == Infix(op, Unary(SignMeans(sign), Member(Tree(a), name)), Tree(b))
  {
    var l := LevelOf(op);
    var read := Dotted(a, name);
    DottedFits(a, name);
    FitsLooser(read, POSTFIX, UNARY);
    SignedFits(sign, read);
    FitsLooser(Signed(sign, read), UNARY, 1 + l);
    FitsLooser(b, UNARY, 2 + l);
    JoinedFits(l, op, Signed(sign, read), b);
  }

  /** The text of a test and two branches, in front of `rest`. */
  function ChoiceText(a: Form, b: Form, st: Style, rest: string): string {
    Written(a, st, Then(st, "?", Written(b, st, Then(st, ":", rest))))
  }

  /** A conditional takes more than any of them: its test any chain of infix
      operators, and its last branch whatever there is, a conditional as well. */
  lemma ConditionalTakesTheRest(a: Form, b: Form, c: Form, st: Style)
    requires Fits(a, 1) && Fits(b, 0) && Fits(c, 0) && IsStyle(st)
    ensures ParsesAs(ChoiceText(a, b, st, Written(c, st, "")), Conditional(Tree(a), Tree(b), Tree(c)))
  {
    ChosenFits(a, b, c);
    ParsesForm(Chosen(a, b, c), 0, st);
    WrittenChosen(a, b, c, st);
  }

  lemma WrittenChosen(a: Form, b: Form, c: Form, st: Style)
    ensures Written(Chosen(a, b, c), st, "") == ChoiceText(a, b, st, Written(c, st, ""))
  {
  }
}
