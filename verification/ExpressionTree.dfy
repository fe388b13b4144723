/** The characters the expression scanner tells apart, and the tree it builds. */
module ExpressionTree {
  import opened Strings

  // ── Characters ────────────────────────────────────────────────────────────

  /** What `str.isspace` accepts. */
  predicate IsSpace(c: char) {
    var n := c as int;
    || 0x09 <= n <= 0x0D || 0x1C <= n <= 0x20 || n == 0x85 || n == 0xA0
    || n == 0x1680 || 0x2000 <= n <= 0x200A || n == 0x2028 || n == 0x2029
    || n == 0x202F || n == 0x205F || n == 0x3000
  }

  predicate IsIdentifierStart(c: char) {
    'A' <= c <= 'Z' || 'a' <= c <= 'z' || c == '_' || c == '$'
  }

  predicate IsIdentifierPart(c: char) { IsIdentifierStart(c) || IsDigit(c) }

  predicate IsSign(c: char) { c == '+' || c == '-' }

  predicate IsPrefix(c: char) { c == '!' || IsSign(c) }

  predicate IsQuote(c: char) { c == '\'' || c == '"' }

  predicate IsExponentLetter(c: char) { c == 'e' || c == 'E' }

  /** What a number goes on with, but for the sign of its exponent. */
  predicate IsNumberPart(c: char) { IsDigit(c) || c == '.' || IsExponentLetter(c) }

  predicate AllSpace(s: string) { forall i | 0 <= i < |s| :: IsSpace(s[i]) }

  predicate IsIdentifier(s: string) {
    s != "" && IsIdentifierStart(s[0]) && forall i | 0 <= i < |s| :: IsIdentifierPart(s[i])
  }

  // ── The tree ──────────────────────────────────────────────────────────────

  /** Below this, every whole number is a float of its own, so that reading a
      literal as a float and storing it as an int loses nothing. */
  const EXACT_INTEGERS: nat := 0x20_0000_0000_0000

  /** `Decimal` is any other number, known by how it was spelled. */
  datatype Literal = Null | Bool(b: bool) | Integer(n: nat) | Decimal(spelling: string) | Text(s: string)

  function NumberLiteral(text: string): Literal {
    if AllDigits(text) && DecimalValue(text) < EXACT_INTEGERS then Integer(DecimalValue(text)) else Decimal(text)
  }

  datatype Node =
    | Lit(value: Literal)
    | Ident(name: string)
    | Member(target: Node, name: string)
    | Index(target: Node, key: Node)
    | Call(callee: Node, args: seq<Node>)
    | Array(items: seq<Node>)
    | Unary(op: string, operand: Node)
    | Infix(op: string, left: Node, right: Node)
    | Conditional(test: Node, consequent: Node, alternate: Node)

  /** An infix operator is "logical" or "binary" in the source; its name says which. */
  predicate IsLogical(op: string) { op in ["&&", "||", "and", "or"] }

  const LEVELS: nat := 6

  /** The precedence table, lowest first. */
  function Operators(level: nat): (ops: seq<string>)
    requires level < LEVELS
    ensures forall op | op in ops :: op != ""
  {
    match level
    case 0 => ["||", "or"]
    case 1 => ["&&", "and"]
    case 2 => ["===", "!==", "==", "!="]
    case 3 => ["<=", ">=", "<", ">"]
    case 4 => ["+", "-"]
    case _ => ["*", "/", "%"]
  }

  predicate IsWordOperator(op: string) { op in ["or", "and", "not"] }

  /** Names a bare identifier cannot have: the literals, and the word operator
      that is tried where an identifier could begin. */
  predicate IsReserved(name: string) {
    name in ["true", "True", "false", "False", "null", "undefined", "None", "not"]
  }
}
