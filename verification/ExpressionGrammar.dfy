/** What the recursive-descent parser computes, as functions from the unread text
    to a tree and the text left over. */
module ExpressionGrammar {
  import opened Strings
  import opened ExpressionTree

  datatype Reason = UnexpectedEnd | UnexpectedText | Expected(c: char) | Unterminated
                  | InvalidNumber(text: string) | ExpectedIdentifier

  /** `at` is the text that was unread where the parser gave up. */
  datatype ParseError = ParseError(reason: Reason, at: string)

  datatype Parsed<+T> = Ok(value: T, rest: string) | Err(error: ParseError)

  // ── Scanning ──────────────────────────────────────────────────────────────

  function SkipSpace(s: string): (r: string)
    ensures |r| <= |s|
    ensures r == "" || !IsSpace(r[0])
  {
    if s != "" && IsSpace(s[0]) then SkipSpace(s[1..]) else s
  }

  predicate Starts(s: string, c: char) { s != "" && s[0] == c }

  predicate StartsWith(s: string, prefix: string) { |prefix| <= |s| && s[..|prefix|] == prefix }

  /** A spelling that consists of letters does not stand where more identifier
      characters follow it. */
  predicate OperatorHere(op: string, s: string) {
    StartsWith(s, op) && !(IsWordOperator(op) && |op| < |s| && IsIdentifierPart(s[|op|]))
  }

  /** The first operator of the list that stands here, "" for none. */
  function MatchOperator(ops: seq<string>, s: string): (op: string)
    ensures op != "" ==> op in ops && OperatorHere(op, s)
    ensures op == "" ==> forall o | o in ops :: o == "" || !OperatorHere(o, s)
  {
    if ops == [] then ""
    else if OperatorHere(ops[0], s) && ops[0] != "" then ops[0]
    else MatchOperator(ops[1..], s)
  }

  function IdentifierLength(s: string): (n: nat)
    ensures n <= |s|
    ensures forall i | 0 <= i < n :: IsIdentifierPart(s[i])
    ensures n < |s| ==> !IsIdentifierPart(s[n])
  {
    if s != "" && IsIdentifierPart(s[0]) then 1 + IdentifierLength(s[1..]) else 0
  }

  function ParseIdentifier(s: string): (r: Parsed<string>)
    ensures r.Ok? ==> |r.rest| < |s|
  {
    var t := SkipSpace(s);
    if t == "" || !IsIdentifierStart(t[0]) then Err(ParseError(ExpectedIdentifier, t))
    else Ok(t[..IdentifierLength(t)], t[IdentifierLength(t)..])
  }

  function Escaped(c: char): char {
    if c == 'n' then '\n' else if c == 't' then '\t' else if c == 'r' then '\r' else c
  }

  /** The text of a string literal up to its closing quote, `s` being what
      follows the opening one. */
  function ParseString(quote: char, s: string): (r: Parsed<string>)
    ensures r.Ok? ==> |r.rest| < |s|
    decreases |s|
  {
    if s == "" then Err(ParseError(Unterminated, s))
    else if s[0] == quote then Ok("", s[1..])
    else
      var (c, after) := if s[0] == '\\' && |s| > 1 then (Escaped(s[1]), s[2..]) else (s[0], s[1..]);
      match ParseString(quote, after)
      case Err(e) => Err(e)
      case Ok(text, rest) => Ok([c] + text, rest)
  }

  /** How far a number reaches: digits, dots, exponent letters, and a sign right
      after an exponent letter. */
  function NumberLength(s: string, afterExponent: bool): (n: nat)
    ensures n <= |s|
    ensures s != "" && (IsDigit(s[0]) || s[0] == '.') ==> n > 0
  {
    if s == "" then 0
    else if IsNumberPart(s[0]) then 1 + NumberLength(s[1..], IsExponentLetter(s[0]))
    else if IsSign(s[0]) && afterExponent then 1 + NumberLength(s[1..], false)
    else 0
  }

  function AfterDigits(s: string): (r: string)
    ensures |r| <= |s|
    ensures r == "" || !IsDigit(r[0])
  {
    if s != "" && IsDigit(s[0]) then AfterDigits(s[1..]) else s
  }

  predicate IsExponent(s: string) {
    var digits := if s != "" && IsSign(s[0]) then s[1..] else s;
    digits != "" && AfterDigits(digits) == ""
  }

  /** Whether `float` takes the text: digits with at most one dot and at least
      one digit, then an optional exponent. */
  predicate IsFloat(text: string) {
    var dotted := AfterDigits(text);
    var tail := if Starts(dotted, '.') then AfterDigits(dotted[1..]) else dotted;
    var digits := |text| - |tail| - (if Starts(dotted, '.') then 1 else 0);
    digits > 0 && (tail == "" || (IsExponentLetter(tail[0]) && IsExponent(tail[1..])))
  }

  function ParseNumber(s: string): (r: Parsed<Literal>)
    requires s != "" && (IsDigit(s[0]) || s[0] == '.')
    ensures r.Ok? ==> |r.rest| < |s|
  {
    var n := NumberLength(s, false);
    if IsFloat(s[..n]) then Ok(NumberLiteral(s[..n]), s[n..])
    else Err(ParseError(InvalidNumber(s[..n]), s[n..]))
  }

  function NameNode(name: string): Node {
    if name in ["true", "True"] then Lit(Bool(true))
    else if name in ["false", "False"] then Lit(Bool(false))
    else if name in ["null", "undefined", "None"] then Lit(Null)
    else Ident(name)
  }

  // ── Grammar ───────────────────────────────────────────────────────────────

  function Parse(source: string): Parsed<Node> {
    match ParseExpression(SkipSpace(source))
    case Err(e) => Err(e)
    case Ok(node, rest) =>
      var rest := SkipSpace(rest);
      if rest == "" then Ok(node, "") else Err(ParseError(UnexpectedText, rest))
  }

  /** An expression is a conditional: a test, and where "?" follows it, two
      branches that are expressions themselves. */
  function ParseExpression(s: string): (r: Parsed<Node>)
    ensures r.Ok? ==> |r.rest| < |s|
    decreases |s|, 20
  {
    match ParseBinary(0, s)
    case Err(e) => Err(e)
    case Ok(test, s1) =>
      var s2 := SkipSpace(s1);
      if !Starts(s2, '?') then Ok(test, s2)
      else
        match ParseExpression(s2[1..])
        case Err(e) => Err(e)
        case Ok(consequent, s3) =>
          var s4 := SkipSpace(s3);
          if !Starts(s4, ':') then Err(ParseError(Expected(':'), s4))
          else
            match ParseExpression(s4[1..])
            case Err(e) => Err(e)
            case Ok(alternate, s5) => Ok(Conditional(test, consequent, alternate), s5)
  }

  function ParseBinary(level: nat, s: string): (r: Parsed<Node>)
    requires level <= LEVELS
    ensures r.Ok? ==> |r.rest| < |s|
    decreases |s|, 10 + LEVELS - level
  {
    if level == LEVELS then ParseUnary(s)
    else
      match ParseBinary(level + 1, s)
      case Err(e) => Err(e)
      case Ok(left, rest) => ContinueBinary(level, left, rest)
  }

  /** What follows an operand at its level: operators and operands, taken from
      the left for as long as there are any. */
  function ContinueBinary(level: nat, left: Node, s: string): (r: Parsed<Node>)
    requires level < LEVELS
    ensures r.Ok? ==> |r.rest| <= |s|
    decreases |s|, 0
  {
    var t := SkipSpace(s);
    var op := MatchOperator(Operators(level), t);
    if op == "" then Ok(left, t) else AfterOperator(level, left, op, t[|op|..])
  }

  function AfterOperator(level: nat, left: Node, op: string, s: string): (r: Parsed<Node>)
    requires level < LEVELS
    ensures r.Ok? ==> |r.rest| < |s|
    decreases |s|, 10 + LEVELS - level
  {
    match ParseBinary(level + 1, s)
    case Err(e) => Err(e)
    case Ok(right, rest) => ContinueBinary(level, Infix(op, left, right), rest)
  }

  function ParseUnary(s: string): (r: Parsed<Node>)
    ensures r.Ok? ==> |r.rest| < |s|
    decreases |s|, 9
  {
    var t := SkipSpace(s);
    if t != "" && IsPrefix(t[0]) && !StartsWith(t, "!=") then
      match ParseUnary(t[1..])
      case Err(e) => Err(e)
      case Ok(operand, rest) => Ok(Unary([t[0]], operand), rest)
    else if MatchOperator(["not"], t) != "" then
      match ParseUnary(t[3..])
      case Err(e) => Err(e)
      case Ok(operand, rest) => Ok(Unary("!", operand), rest)
    else
      ParsePostfix(t)
  }

  function ParsePostfix(s: string): (r: Parsed<Node>)
    ensures r.Ok? ==> |r.rest| < |s|
    decreases |s|, 8
  {
    match ParsePrimary(s)
    case Err(e) => Err(e)
    case Ok(node, rest) => ContinuePostfix(node, rest)
  }

  predicate PostfixHere(s: string) { Starts(s, '.') || Starts(s, '[') || Starts(s, '(') }

  /** Member reads, index reads and calls, applied to what was read so far. */
  function ContinuePostfix(node: Node, s: string): (r: Parsed<Node>)
    ensures r.Ok? ==> |r.rest| <= |s|
    decreases |s|, 0
  {
    var t := SkipSpace(s);
    if !PostfixHere(t) then Ok(node, t)
    else
      match ParseOnePostfix(node, t)
      case Err(e) => Err(e)
      case Ok(read, rest) => ContinuePostfix(read, rest)
  }

  function ParseOnePostfix(node: Node, s: string): (r: Parsed<Node>)
    requires PostfixHere(s)
    ensures r.Ok? ==> |r.rest| < |s|
    decreases |s|, 0, 0
  {
    if s[0] == '.' then
      match ParseIdentifier(s[1..])
      case Err(e) => Err(e)
      case Ok(name, rest) => Ok(Member(node, name), rest)
    else if s[0] == '[' then
      match ParseExpression(s[1..])
      case Err(e) => Err(e)
      case Ok(key, rest) =>
        var rest := SkipSpace(rest);
        if Starts(rest, ']') then Ok(Index(node, key), rest[1..]) else Err(ParseError(Expected(']'), rest))
    else
      match ParseArguments(')', s[1..])
      case Err(e) => Err(e)
      case Ok(args, rest) => Ok(Call(node, args), rest)
  }

  function ParseArguments(closing: char, s: string): (r: Parsed<seq<Node>>)
    ensures r.Ok? ==> |r.rest| < |s|
    decreases |s|, 30
  {
    var t := SkipSpace(s);
    if Starts(t, closing) then Ok([], t[1..]) else ContinueArguments(closing, [], t)
  }

  function ContinueArguments(closing: char, args: seq<Node>, s: string): (r: Parsed<seq<Node>>)
    ensures r.Ok? ==> |r.rest| < |s|
    decreases |s|, 25
  {
    match ParseExpression(s)
    case Err(e) => Err(e)
    case Ok(arg, rest) =>
      var t := SkipSpace(rest);
      if Starts(t, ',') then ContinueArguments(closing, args + [arg], t[1..])
      else if Starts(t, closing) then Ok(args + [arg], t[1..])
      else Err(ParseError(Expected(closing), t))
  }

  function ParsePrimary(s: string): (r: Parsed<Node>)
    ensures r.Ok? ==> |r.rest| < |s|
    decreases |s|, 7
  {
    var t := SkipSpace(s);
    if t == "" then Err(ParseError(UnexpectedEnd, t))
    else if t[0] == '(' then
      match ParseExpression(t[1..])
      case Err(e) => Err(e)
      case Ok(node, rest) =>
        var rest := SkipSpace(rest);
        if Starts(rest, ')') then Ok(node, rest[1..]) else Err(ParseError(Expected(')'), rest))
    else if t[0] == '[' then
      match ParseArguments(']', t[1..])
      case Err(e) => Err(e)
      case Ok(items, rest) => Ok(Array(items), rest)
    else if IsQuote(t[0]) then
      match ParseString(t[0], t[1..])
      case Err(e) => Err(e)
      case Ok(text, rest) => Ok(Lit(Text(text)), rest)
    else if IsDigit(t[0]) || (t[0] == '.' && |t| > 1 && IsDigit(t[1])) then
      match ParseNumber(t)
      case Err(e) => Err(e)
      case Ok(value, rest) => Ok(Lit(value), rest)
    else
      match ParseIdentifier(t)
      case Err(e) => Err(e)
      case Ok(name, rest) => Ok(NameNode(name), rest)
  }
}
