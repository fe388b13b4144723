/** How an expression may be written, told without the parser: the forms of the
    language with every token as it is spelled, the tree each stands for, and the
    texts that lay one out. */
module ExpressionForms {
  import opened Strings
  import opened ExpressionTree

  /** A written form. Words, numerals and quotations hold their characters, a
      quotation those between its quotes. */
  datatype Form =
    | Word(name: string)
    | Numeral(text: string)
    | Quotation(quote: char, body: string)
    | Dotted(target: Form, name: string)
    | Keyed(target: Form, key: Form)
    | Applied(callee: Form, args: seq<Form>)
    | Listed(items: seq<Form>)
    | Signed(sign: string, operand: Form)
    | Joined(op: string, left: Form, right: Form)
    | Chosen(test: Form, consequent: Form, alternate: Form)
    | Parens(inner: Form)

  // ── Tokens ────────────────────────────────────────────────────────────────

  /** What a word is a literal for, if it is one for anything. */
  function WordMeans(word: string): Option<Literal> {
    if word == "true" || word == "True" then Some(Bool(true))
    else if word == "false" || word == "False" then Some(Bool(false))
    else if word == "null" || word == "undefined" || word == "None" then Some(Literal.Null)
    else None
  }

  predicate IsFraction(s: string) { s != "" ==> s[0] == '.' && AllDigits(s[1..]) }

  predicate IsExponentPart(s: string) {
    s != "" ==>
      var digits := if |s| > 1 && IsSign(s[1]) then s[2..] else s[1..];
      IsExponentLetter(s[0]) && digits != "" && AllDigits(digits)
  }

  /** Digits, a dot and digits, an exponent: each may be missing, but not all
      digits in front of the exponent. */
  ghost predicate IsNumeral(s: string) {
    exists whole, fraction, exponent :: IsNumeralOf(s, whole, fraction, exponent)
  }

  predicate IsNumeralOf(s: string, whole: string, fraction: string, exponent: string) {
    && s == whole + (fraction + exponent)
    && AllDigits(whole) && IsFraction(fraction) && IsExponentPart(exponent) && (whole != "" || |fraction| > 1)
  }

  /** Between two quotes: anything but the quote, and a backslash only in front
      of a character. */
  predicate IsBody(quote: char, body: string)
    decreases |body|
  {
    body == ""
    || (if body[0] == '\\' then |body| >= 2 && IsBody(quote, body[2..]) else body[0] != quote && IsBody(quote, body[1..]))
  }

  function UnescapedChar(c: char): char {
    match c
    case 'n' => '\n'
    case 't' => '\t'
    case 'r' => '\r'
    case _ => c
  }

  /** The text a quotation is of. */
  function Unescaped(body: string): string
    decreases |body|
  {
    if body == "" then ""
    else if body[0] == '\\' && |body| >= 2 then [UnescapedChar(body[1])] + Unescaped(body[2..])
    else [body[0]] + Unescaped(body[1..])
  }

  // ── Trees ─────────────────────────────────────────────────────────────────

  /** The tree a form stands for. */
  function Tree(f: Form): Node
    decreases f
  {
    match f
    case Word(name) => if WordMeans(name).Some? then Lit(WordMeans(name).value) else Ident(name)
    case Numeral(text) => Lit(NumberLiteral(text))
    case Quotation(_, body) => Lit(Text(Unescaped(body)))
    case Dotted(o, name) => Member(Tree(o), name)
    case Keyed(o, k) => Index(Tree(o), Tree(k))
    case Applied(c, args) => Call(Tree(c), Trees(args))
    case Listed(items) => Array(Trees(items))
    case Signed(sign, x) => Unary(if sign == "not" then "!" else sign, Tree(x))
    case Joined(op, l, r) => Infix(op, Tree(l), Tree(r))
    case Chosen(t, c, a) => Conditional(Tree(t), Tree(c), Tree(a))
    case Parens(x) => Tree(x)
  }

  function Trees(fs: seq<Form>): (ns: seq<Node>)
    ensures |ns| == |fs|
    decreases fs
  {
    if fs == [] then [] else [Tree(fs[0])] + Trees(fs[1..])
  }

  // ── Precedence ────────────────────────────────────────────────────────────

  /** The infix operators, those that bind loosest first. */
  const PRECEDENCE: seq<seq<string>> := [
    ["||", "or"],
    ["&&", "and"],
    ["==", "!=", "===", "!=="],
    ["<", "<=", ">", ">="],
    ["+", "-"],
    ["*", "/", "%"]]

  /** The level of an operator, from some level on; LEVELS for what is none. */
  function LevelFrom(least: nat, op: string): (level: nat)
    requires least <= LEVELS
    ensures least <= level <= LEVELS
    ensures level < LEVELS ==> op in PRECEDENCE[level]
    decreases LEVELS - least
  {
    if least == LEVELS || op in PRECEDENCE[least] then least else LevelFrom(least + 1, op)
  }

  function LevelOf(op: string): (level: nat)
    ensures level < LEVELS ==> op in PRECEDENCE[level]
  {
    LevelFrom(0, op)
  }

  const CONDITIONAL := 0
  const UNARY := 7
  const POSTFIX := 8
  const PRIMARY := 9

  /** How tightly a form binds: 0 for a conditional, 1 to 6 for the operators of
      the table, then prefix, postfix and primary forms. */
  function Rank(f: Form): (r: nat)
    ensures r <= PRIMARY
  {
    match f
    case Chosen(_, _, _) => CONDITIONAL
    case Joined(op, _, _) => 1 + LevelOf(op)
    case Signed(_, _) => UNARY
    case Dotted(_, _) => POSTFIX
    case Keyed(_, _) => POSTFIX
    case Applied(_, _) => POSTFIX
    case _ => PRIMARY
  }

  /** The form holds parentheses wherever the precedence table, left association
      of infix operators and right association of "?:" require them, for a place
      where something of at least rank `r` must stand. It may hold more. */
  predicate Readable(f: Form, r: nat)
    decreases f
  {
    && Rank(f) >= r
    && match f
       case Chosen(t, c, a) => Readable(t, 1) && Readable(c, 0) && Readable(a, 0)
       case Joined(op, l, right) => Readable(l, Rank(f)) && Readable(right, Rank(f) + 1)
       case Signed(_, x) => Readable(x, UNARY)
       case Dotted(o, _) => Readable(o, POSTFIX)
       case Keyed(o, k) => Readable(o, POSTFIX) && Readable(k, 0)
       case Applied(c, args) => Readable(c, POSTFIX) && forall i | 0 <= i < |args| :: Readable(args[i], 0)
       case Listed(items) => forall i | 0 <= i < |items| :: Readable(items[i], 0)
       case Parens(x) => Readable(x, 0)
       case _ => true
  }

  /** Its tokens are spelled as the language has them. */
  ghost predicate Spelled(f: Form) {
    match f
    case Word(name) => IsIdentifier(name) && name != "not"
    case Numeral(text) => IsNumeral(text)
    case Quotation(quote, body) => IsQuote(quote) && IsBody(quote, body)
    case Dotted(o, name) => Spelled(o) && IsIdentifier(name)
    case Keyed(o, k) => Spelled(o) && Spelled(k)
    case Applied(c, args) => Spelled(c) && forall i | 0 <= i < |args| :: Spelled(args[i])
    case Listed(items) => forall i | 0 <= i < |items| :: Spelled(items[i])
    case Signed(sign, x) => sign in ["!", "-", "+", "not"] && Spelled(x)
    case Joined(op, l, r) => LevelOf(op) < LEVELS && Spelled(l) && Spelled(r)
    case Chosen(t, c, a) => Spelled(t) && Spelled(c) && Spelled(a)
    case Parens(x) => Spelled(x)
  }

  /** A form ill spelled, or not one where something of rank `r` must stand. */
  ghost predicate Misfits(f: Form, r: nat) { !Spelled(f) || !Readable(f, r) }

  ghost predicate Fits(f: Form, r: nat) { !Misfits(f, r) }

  // ── Text ──────────────────────────────────────────────────────────────────

  /** How a form is laid out: the white space after a token, which may differ
      with the text that follows it and so from one token to the next. */
  datatype Style = Style(gap: string -> string)

  ghost predicate IsStyle(st: Style) { forall s :: AllSpace(st.gap(s)) }

  predicate IsNumberToken(token: string) {
    token != "" && (IsDigit(token[0]) || (token[0] == '.' && |token| > 1 && IsDigit(token[1])))
  }

  /** Whether a token would go on into the text directly behind it: a word into
      more of an identifier, a number into more of a number. */
  predicate Merges(token: string, rest: string) {
    && token != "" && rest != ""
    && if IsIdentifierStart(token[0]) then IsIdentifierPart(rest[0]) else IsNumberToken(token) && IsNumberPart(rest[0])
  }

  /** What stands between a token and the text behind it: the white space the
      style wants, and a space where it wants none and there must be some. */
  function Gap(st: Style, token: string, rest: string): (gap: string)
    ensures IsStyle(st) ==> AllSpace(gap)
  {
    if st.gap(rest) == "" && Merges(token, rest) then " " else st.gap(rest)
  }

  function After(st: Style, token: string, rest: string): string { Gap(st, token, rest) + rest }

  function Then(st: Style, token: string, rest: string): string { token + After(st, token, rest) }

  /** The text of a form, laid out in front of `rest`. */
  function Written(f: Form, st: Style, rest: string): string
    decreases f
  {
    match f
    case Word(name) => Then(st, name, rest)
    case Numeral(text) => Then(st, text, rest)
    case Quotation(quote, body) => [quote] + (body + ([quote] + After(st, "", rest)))
    case Dotted(o, name) => Written(o, st, Then(st, ".", Then(st, name, rest)))
    case Keyed(o, k) => Written(o, st, Then(st, "[", Written(k, st, Then(st, "]", rest))))
    case Applied(c, args) => Written(c, st, Then(st, "(", WrittenList(args, st, Then(st, ")", rest))))
    case Listed(items) => Then(st, "[", WrittenList(items, st, Then(st, "]", rest)))
    case Signed(sign, x) => Then(st, sign, Written(x, st, rest))
    case Joined(op, l, r) => Written(l, st, Then(st, op, Written(r, st, rest)))
    case Chosen(t, c, a) => Written(t, st, Then(st, "?", Written(c, st, Then(st, ":", Written(a, st, rest)))))
    case Parens(x) => Then(st, "(", Written(x, st, Then(st, ")", rest)))
  }

  function WrittenList(fs: seq<Form>, st: Style, rest: string): string
    decreases fs
  {
    if fs == [] then rest
    else if |fs| == 1 then Written(fs[0], st, rest)
    else Written(fs[0], st, Then(st, ",", WrittenList(fs[1..], st, rest)))
  }

  /** The text lays the form out, white space in front of it included. */
  ghost predicate LaysOut(text: string, f: Form) {
    exists st, lead :: IsLayout(text, f, st, lead)
  }

  ghost predicate IsLayout(text: string, f: Form, st: Style, lead: string) {
    IsStyle(st) && AllSpace(lead) && text == lead + Written(f, st, "")
  }
}
