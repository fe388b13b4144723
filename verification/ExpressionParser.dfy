/** The parser as the source has it: a position moved through the text by loops
    and mutually recursive methods, each proved against the grammar's function
    of what was unread when it began. */
module ExpressionParser {
  import opened Strings
  import opened ExpressionTree
  import G = ExpressionGrammar

  datatype Outcome<+T> = Done(value: T) | Failed(error: G.ParseError)

  /** What a string reads as, given what was read of it before. */
  ghost function After(text: string, r: G.Parsed<string>): G.Parsed<string> {
    match r
    case Ok(more, rest) => G.Ok(text + more, rest)
    case Err(e) => G.Err(e)
  }

  lemma NothingBefore(r: G.Parsed<string>)
    ensures After("", r) == r
  {
    if r.Ok? {
      assert "" + r.value == r.value;
    }
  }

  lemma AfterOneMore(text: string, c: char, r: G.Parsed<string>)
    ensures After(text, After([c], r)) == After(text + [c], r)
  {
    if r.Ok? {
      assert text + ([c] + r.value) == text + [c] + r.value;
    }
  }

  class Parser {
    const source: string
    var pos: nat

    constructor (source: string)
      ensures this.source == source && pos == 0
    {
      this.source := source;
      pos := 0;
    }

    predicate Valid()
      reads this
    {
      pos <= |source|
    }

    function Unread(): string
      reads this
      requires Valid()
    {
      source[pos..]
    }

    /** A method's outcome, and where it left the position, are the grammar's. */
    ghost predicate Follows<T>(r: Outcome<T>, spec: G.Parsed<T>)
      reads this
    {
      && Valid()
      && match spec
         case Ok(value, rest) => r == Done(value) && Unread() == rest
         case Err(e) => r == Failed(e)
    }

    method Parse() returns (r: Outcome<Node>)
      requires pos == 0
      modifies this`pos
      ensures match G.Parse(source)
              case Ok(node, _) => r == Done(node) && pos == |source|
              case Err(e) => r == Failed(e)
    {
      assert source[0..] == source;
      SkipBlank();
      r := ParseExpression();
      if r.Failed? { return; }
      SkipBlank();
      if pos != |source| {
        r := Failed(G.ParseError(G.UnexpectedText, source[pos..]));
      }
    }

    // ── Scanning ────────────────────────────────────────────────────────────

    method SkipBlank()
      requires Valid()
      modifies this`pos
      ensures Valid() && Unread() == G.SkipSpace(old(Unread())) && pos >= old(pos)
    {
      while pos < |source| && IsSpace(source[pos])
        invariant Valid() && G.SkipSpace(Unread()) == G.SkipSpace(old(Unread())) && pos >= old(pos)
      {
        pos := pos + 1;
      }
    }

    predicate At(c: char)
      reads this
    {
      pos < |source| && source[pos] == c
    }

    method Advance()
      requires Valid() && pos < |source|
      modifies this`pos
      ensures Valid() && pos == old(pos) + 1 && Unread() == old(Unread())[1..]
    {
      pos := pos + 1;
    }

    method Expect(c: char) returns (r: Outcome<()>)
      requires Valid()
      modifies this`pos
      ensures Valid() && pos >= old(pos)
      ensures if G.Starts(old(Unread()), c) then r == Done(()) && Unread() == old(Unread())[1..]
              else r == Failed(G.ParseError(G.Expected(c), old(Unread())))
    {
      if !At(c) {
        return Failed(G.ParseError(G.Expected(c), source[pos..]));
      }
      pos := pos + 1;
      r := Done(());
    }

    method MatchOperator(operators: seq<string>) returns (op: string)
      requires Valid() && forall o | o in operators :: o != ""
      modifies this`pos
      ensures op == G.MatchOperator(operators, old(Unread()))
      ensures Valid() && |op| <= |old(Unread())| && Unread() == old(Unread())[|op|..]
      ensures if op == "" then pos == old(pos) else pos > old(pos)
    {
      var i := 0;
      assert operators[0..] == operators;
      while i < |operators|
        invariant 0 <= i <= |operators| && pos == old(pos)
        invariant G.MatchOperator(operators, Unread()) == G.MatchOperator(operators[i..], Unread())
      {
        op := operators[i];
        assert op in operators && operators[i..][0] == op && operators[i..][1..] == operators[i + 1..];
        if G.OperatorHere(op, Unread()) {
          pos := pos + |op|;
          return;
        }
        i := i + 1;
      }
      op := "";
    }

    method ParseIdentifier() returns (r: Outcome<string>)
      requires Valid()
      modifies this`pos
      ensures Follows(r, G.ParseIdentifier(old(Unread())))
    {
      SkipBlank();
      if pos == |source| || !IsIdentifierStart(source[pos]) {
        return Failed(G.ParseError(G.ExpectedIdentifier, source[pos..]));
      }
      var name := ScanIdentifier();
      r := Done(name);
    }

    method ScanIdentifier() returns (name: string)
      requires Valid()
      modifies this`pos
      ensures Valid() && var n := G.IdentifierLength(old(Unread()));
              name == old(Unread())[..n] && Unread() == old(Unread())[n..]
    {
      var start := pos;
      ghost var t := Unread();
      while pos < |source| && IsIdentifierPart(source[pos])
        invariant start <= pos <= |source|
        invariant pos - start + G.IdentifierLength(Unread()) == G.IdentifierLength(t)
      {
        pos := pos + 1;
      }
      name := source[start..pos];
    }

    /** Called at the opening quote. */
    method ParseString(quote: char) returns (r: Outcome<string>)
      requires Valid() && At(quote)
      modifies this`pos
      ensures Follows(r, G.ParseString(quote, old(Unread())[1..]))
    {
      Advance();
      var text := "";
      ghost var all := G.ParseString(quote, Unread());
      NothingBefore(all);
      while pos < |source| && source[pos] != quote
        invariant Valid()
        invariant all == After(text, G.ParseString(quote, Unread()))
      {
        ghost var s := Unread();
        var c := source[pos];
        if c == '\\' && pos + 1 < |source| {
          Advance();
          c := G.Escaped(source[pos]);
        }
        Advance();
        AfterOneMore(text, c, G.ParseString(quote, Unread()));
        text := text + [c];
      }
      if pos >= |source| {
        return Failed(G.ParseError(G.Unterminated, ""));
      }
      assert text + "" == text;
      Advance();
      r := Done(text);
    }

    method ParseNumber() returns (r: Outcome<Literal>)
      requires Valid() && Unread() != "" && (IsDigit(Unread()[0]) || Unread()[0] == '.')
      modifies this`pos
      ensures Follows(r, G.ParseNumber(old(Unread())))
    {
      var text := ScanNumber();
      if !G.IsFloat(text) {
        return Failed(G.ParseError(G.InvalidNumber(text), source[pos..]));
      }
      r := Done(NumberLiteral(text));
    }

    method ScanNumber() returns (text: string)
      requires Valid()
      modifies this`pos
      ensures Valid() && var n := G.NumberLength(old(Unread()), false);
              text == old(Unread())[..n] && Unread() == old(Unread())[n..]
    {
      var start := pos;
      ghost var t := Unread();
      while pos < |source|
        invariant start <= pos <= |source|
        invariant pos - start + G.NumberLength(Unread(), pos > start && IsExponentLetter(source[pos - 1])) == G.NumberLength(t, false)
      {
        var c := source[pos];
        assert Unread()[0] == c && Unread()[1..] == source[pos + 1..];
        if IsNumberPart(c) {
          pos := pos + 1;
        } else if IsSign(c) && pos > start && IsExponentLetter(source[pos - 1]) {
          pos := pos + 1;
        } else {
          break;
        }
      }
      text := source[start..pos];
      assert t[..pos - start] == text && t[pos - start..] == source[pos..];
    }

    // ── Grammar ─────────────────────────────────────────────────────────────

    method ParseExpression() returns (r: Outcome<Node>)
      requires Valid()
      modifies this`pos
      ensures Follows(r, G.ParseExpression(old(Unread())))
      decreases |source| - pos, 20
    {
      r := ParseBinary(0);
      if r.Failed? { return; }
      var test := r.value;
      SkipBlank();
      if !At('?') { return; }
      Advance();
      r := ParseExpression();
      if r.Failed? { return; }
      var consequent := r.value;
      SkipBlank();
      var colon := Expect(':');
      if colon.Failed? { return Failed(colon.error); }
      r := ParseExpression();
      if r.Failed? { return; }
      r := Done(Conditional(test, consequent, r.value));
    }

    method ParseBinary(level: nat) returns (r: Outcome<Node>)
      requires Valid() && level <= LEVELS
      modifies this`pos
      ensures Follows(r, G.ParseBinary(level, old(Unread())))
      decreases |source| - pos, 10 + LEVELS - level
    {
      if level == LEVELS {
        r := ParseUnary();
        return;
      }
      r := ParseBinary(level + 1);
      if r.Failed? { return; }
      r := ParseChain(level, r.value);
    }

    /** The loop of a level: operators and operands, taken from the left. */
    method ParseChain(level: nat, first: Node) returns (r: Outcome<Node>)
      requires Valid() && level < LEVELS
      modifies this`pos
      ensures Follows(r, G.ContinueBinary(level, first, old(Unread())))
      decreases |source| - pos, 0
    {
      r := Done(first);
      ghost var all := G.ContinueBinary(level, first, Unread());
      var matched := NextOperator(level, first);
      while matched != ""
        invariant Valid() && pos >= old(pos) && r.Done?
        invariant matched != "" ==> pos > old(pos) && all == G.AfterOperator(level, r.value, matched, Unread())
        invariant matched == "" ==> all == G.Ok(r.value, Unread())
        decreases |source| - pos
      {
        var left := r.value;
        r := ParseBinary(level + 1);
        if r.Failed? { return; }
        r := Done(Infix(matched, left, r.value));
        matched := NextOperator(level, r.value);
      }
    }

    /** The operator of a level that stands next, taken. */
    method NextOperator(level: nat, ghost left: Node) returns (op: string)
      requires Valid() && level < LEVELS
      modifies this`pos
      ensures Valid() && pos >= old(pos) && (op != "" ==> pos > old(pos))
      ensures G.ContinueBinary(level, left, old(Unread())) ==
              if op == "" then G.Ok(left, Unread()) else G.AfterOperator(level, left, op, Unread())
    {
      SkipBlank();
      op := MatchOperator(Operators(level));
    }

    method ParseUnary() returns (r: Outcome<Node>)
      requires Valid()
      modifies this`pos
      ensures Follows(r, G.ParseUnary(old(Unread())))
      decreases |source| - pos, 9
    {
      SkipBlank();
      if (At('!') || At('-') || At('+')) && !G.StartsWith(Unread(), "!=") {
        var op := [source[pos]];
        Advance();
        r := ParseUnary();
        if r.Done? { r := Done(Unary(op, r.value)); }
        return;
      }
      var word := MatchOperator(["not"]);
      if word != "" {
        r := ParseUnary();
        if r.Done? { r := Done(Unary("!", r.value)); }
        return;
      }
      r := ParsePostfix();
    }

    method ParsePostfix() returns (r: Outcome<Node>)
      requires Valid()
      modifies this`pos
      ensures Follows(r, G.ParsePostfix(old(Unread())))
      decreases |source| - pos, 8
    {
      r := ParsePrimary();
      if r.Done? {
        r := ParseReads(r.value);
      }
    }

    /** The loop of member reads, index reads and calls. */
    method ParseReads(first: Node) returns (r: Outcome<Node>)
      requires Valid()
      modifies this`pos
      ensures Follows(r, G.ContinuePostfix(first, old(Unread())))
      decreases |source| - pos, 1
    {
      r := Done(first);
      ghost var all := G.ContinuePostfix(first, Unread());
      SkipBlank();
      while At('.') || At('[') || At('(')
        invariant Valid() && pos >= old(pos) && r.Done? && G.SkipSpace(Unread()) == Unread()
        invariant G.ContinuePostfix(r.value, Unread()) == all
        decreases |source| - pos
      {
        r := ParseOnePostfix(r.value);
        if r.Failed? { return; }
        SkipBlank();
      }
    }

    /** The member read, index read or call that stands here. */
    method ParseOnePostfix(node: Node) returns (r: Outcome<Node>)
      requires Valid() && G.PostfixHere(Unread())
      modifies this`pos
      ensures Follows(r, G.ParseOnePostfix(node, old(Unread())))
      decreases |source| - pos, 0
    {
      if At('.') {
        Advance();
        var name := ParseIdentifier();
        r := if name.Done? then Done(Member(node, name.value)) else Failed(name.error);
      } else if At('[') {
        Advance();
        r := ParseExpression();
        if r.Failed? { return; }
        SkipBlank();
        var bracket := Expect(']');
        r := if bracket.Done? then Done(Index(node, r.value)) else Failed(bracket.error);
      } else {
        Advance();
        var args := ParseArguments(')');
        r := if args.Done? then Done(Call(node, args.value)) else Failed(args.error);
      }
    }

    method ParseArguments(closing: char) returns (r: Outcome<seq<Node>>)
      requires Valid()
      modifies this`pos
      ensures Follows(r, G.ParseArguments(closing, old(Unread())))
      decreases |source| - pos, 30
    {
      var args := [];
      SkipBlank();
      if At(closing) {
        Advance();
        return Done(args);
      }
      ghost var all := G.ContinueArguments(closing, args, Unread());
      while true
        invariant Valid() && pos >= old(pos)
        invariant G.ContinueArguments(closing, args, Unread()) == all
        decreases |source| - pos
      {
        var arg := ParseExpression();
        if arg.Failed? { return Failed(arg.error); }
        args := args + [arg.value];
        SkipBlank();
        if At(',') {
          Advance();
          continue;
        }
        var end := Expect(closing);
        if end.Failed? { return Failed(end.error); }
        return Done(args);
      }
    }

    method ParsePrimary() returns (r: Outcome<Node>)
      requires Valid()
      modifies this`pos
      ensures Follows(r, G.ParsePrimary(old(Unread())))
      decreases |source| - pos, 7
    {
      SkipBlank();
      if pos == |source| {
        return Failed(G.ParseError(G.UnexpectedEnd, ""));
      }
      var c := source[pos];
      if c == '(' {
        Advance();
        r := ParseExpression();
        if r.Failed? { return; }
        SkipBlank();
        var bracket := Expect(')');
        if bracket.Failed? { return Failed(bracket.error); }
      } else if c == '[' {
        Advance();
        var items := ParseArguments(']');
        r := if items.Done? then Done(Array(items.value)) else Failed(items.error);
      } else if IsQuote(c) {
        var text := ParseString(c);
        r := if text.Done? then Done(Lit(Text(text.value))) else Failed(text.error);
      } else if IsDigit(c) || (c == '.' && pos + 1 < |source| && IsDigit(source[pos + 1])) {
        var number := ParseNumber();
        r := if number.Done? then Done(Lit(number.value)) else Failed(number.error);
      } else {
        var name := ParseIdentifier();
        r := if name.Done? then Done(G.NameNode(name.value)) else Failed(name.error);
      }
    }
  }
}
