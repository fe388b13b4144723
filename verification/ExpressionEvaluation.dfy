/** Evaluating expression trees, and the reads that find nothing: what a chain of
    member reads evaluates to and which one read of it is reported. */
module ExpressionEvaluation {
  import opened Strings
  import opened ExpressionTree
  import V = Values
  import Json

  /** What evaluation calls and this model does not look into: coercions of text
      and values, number spellings, arithmetic and the builtin functions, where
      None is a builtin that raises. */
  datatype Library = Library(
    toNumber: string -> Option<real>,
    toText: V.Value -> string,
    decimal: string -> V.Value,
    spelled: string -> string,
    builtins: set<string>,
    call: (string, seq<V.Value>) -> Option<V.Value>,
    signed: (string, V.Value) -> V.Value,
    infix: (string, V.Value, V.Value) -> V.Value)

  /** How an evaluation ends, and the reads it reported on the way. */
  datatype Outcome = Done(value: V.Value, reports: seq<string>) | Failed(reports: seq<string>)

  /** A member read: its value, and whether it found something there. */
  datatype Read = Read(value: V.Value, found: bool, reports: seq<string>) | Raised(reports: seq<string>)

  type Scope = map<string, V.Value>

  // ── One member ────────────────────────────────────────────────────────────

  function ToNumber(v: V.Value, lib: Library): Option<real> {
    match v
    case Bool(b) => Some(if b then 1.0 else 0.0)
    case Int(n) => Some(n as real)
    case Real(x) => Some(x)
    case Null => Some(0.0)
    case Str(s) => lib.toNumber(s)
    case _ => None
  }

  function Indexed(key: V.Value, size: nat, lib: Library): (i: Option<nat>)
    ensures i.Some? ==> i.value < size
  {
    var x := ToNumber(key, lib);
    if x.Some? && 0.0 <= x.value < size as real then Some(x.value.Floor) else None
  }

  /** What `obj[key]` finds, or None when nothing is there. */
  function MemberOf(obj: V.Value, key: V.Value, lib: Library): Option<V.Value> {
    match obj
    case List(items) =>
      if key == V.Str("length") then Some(V.Int(|items|))
      else
        var i := Indexed(key, |items|, lib);
        if i.Some? then Some(items[i.value]) else None
    case Str(s) =>
      if key == V.Str("length") then Some(V.Int(|s|))
      else
        var i := Indexed(key, |s|, lib);
        if i.Some? then Some(V.Str([s[i.value]])) else None
    case Dict(fields) =>
      var name := if key.Str? then key.s else lib.toText(key);
      if name in fields then Some(fields[name]) else None
    case _ => None
  }

  // ── Naming a read ─────────────────────────────────────────────────────────

  const UNNAMED := ['\U{2026}']

  function Dumped(v: Literal, lib: Library): string {
    match v
    case Null => "null"
    case Bool(b) => if b then "true" else "false"
    case Integer(n) => Digits(n)
    case Decimal(spelling) => lib.spelled(spelling)
    case Text(s) => Json.Quoted(s, true)
  }

  /** The text of a report: the links joined, with UNNAMED for a base or a key
      that is computed. */
  function PathOf(n: Node, lib: Library): string {
    match n
    case Ident(name) => name
    case Member(target, name) => PathOf(target, lib) + "." + name
    case Index(target, key) => PathOf(target, lib) + "[" + (if key.Lit? then Dumped(key.value, lib) else UNNAMED) + "]"
    case _ => UNNAMED
  }

  // ── Evaluation ────────────────────────────────────────────────────────────

  function LiteralValue(v: Literal, lib: Library): V.Value {
    match v
    case Null => V.Null
    case Bool(b) => V.Bool(b)
    case Integer(n) => V.Int(n)
    case Decimal(spelling) => lib.decimal(spelling)
    case Text(s) => V.Str(s)
  }

  predicate IsTruthy(v: V.Value) {
    match v
    case Null => false
    case Bool(b) => b
    case Int(n) => n != 0
    case Real(x) => x != 0.0
    case Str(s) => s != ""
    case _ => true
  }

  /** The dotted name a builtin is looked up by. */
  function CalleeName(n: Node): Option<string> {
    match n
    case Ident(name) => Some(name)
    case Member(target, name) =>
      var prefix := CalleeName(target);
      if prefix.None? then None else Some(prefix.value + "." + name)
    case _ => None
  }

  predicate IsRead(n: Node) { n.Member? || n.Index? }

  function Evaluate(n: Node, scope: Scope, lib: Library): Outcome
    decreases n, 1
  {
    match n
    case Lit(v) => Done(LiteralValue(v, lib), [])
    case Ident(name) =>
      if name in scope then Done(scope[name], []) else if name in lib.builtins then Failed([]) else Done(V.Null, [])
    case Member(_, _) => ValueOf(ReadMember(n, scope, lib))
    case Index(_, _) => ValueOf(ReadMember(n, scope, lib))
    case Array(items) =>
      var (values, reports, raised) := EvaluateAll(items, scope, lib);
      if raised then Failed(reports) else Done(V.List(values), reports)
    case Call(callee, args) =>
      var name := CalleeName(callee);
      if name.None? || name.value !in lib.builtins then Failed([])
      else
        var (values, reports, raised) := EvaluateAll(args, scope, lib);
        var result := if raised then None else lib.call(name.value, values);
        if result.None? then Failed(reports) else Done(result.value, reports)
    case Unary(op, x) =>
      var operand := Evaluate(x, scope, lib);
      if operand.Failed? then operand
      else Done(if op == "!" then V.Bool(!IsTruthy(operand.value)) else lib.signed(op, operand.value), operand.reports)
    case Infix(op, l, r) =>
      var left := Evaluate(l, scope, lib);
      if left.Failed? || (IsLogical(op) && IsTruthy(left.value) != (op in ["&&", "and"])) then left
      else
        var right := Noting(left.reports, Evaluate(r, scope, lib));
        if right.Failed? || IsLogical(op) then right
        else Done(lib.infix(op, left.value, right.value), right.reports)
    case Conditional(t, c, a) =>
      var test := Evaluate(t, scope, lib);
      if test.Failed? then test
      else Noting(test.reports, if IsTruthy(test.value) then Evaluate(c, scope, lib) else Evaluate(a, scope, lib))
  }

  function ValueOf(r: Read): Outcome { if r.Raised? then Failed(r.reports) else Done(r.value, r.reports) }

  function Noting(before: seq<string>, o: Outcome): Outcome {
    if o.Failed? then Failed(before + o.reports) else Done(o.value, before + o.reports)
  }

  function EvaluateAll(ns: seq<Node>, scope: Scope, lib: Library): (seq<V.Value>, seq<string>, bool)
    decreases ns
  {
    if ns == [] then ([], [], false)
    else
      var first := Evaluate(ns[0], scope, lib);
      if first.Failed? then ([], first.reports, true)
      else
        var (values, reports, raised) := EvaluateAll(ns[1..], scope, lib);
        ([first.value] + values, first.reports + reports, raised)
  }

  /** Evaluates a chain from its base outward. `Gone` below a link means that the
      one report has been made; `Null` there means that nothing has been yet. */
  function ReadMember(n: Node, scope: Scope, lib: Library): Read
    requires IsRead(n)
    decreases n, 0
  {
    var obj := if IsRead(n.target) then ReadMember(n.target, scope, lib) else AsRead(Evaluate(n.target, scope, lib));
    if obj.Raised? then obj
    else
      var key := Noting(obj.reports, if n.Index? then Evaluate(n.key, scope, lib) else Done(V.Str(n.name), []));
      if key.Failed? then Raised(key.reports) else Look(n, obj, key, lib)
  }

  function AsRead(o: Outcome): Read { if o.Failed? then Raised(o.reports) else Read(o.value, true, o.reports) }

  function Look(n: Node, obj: Read, key: Outcome, lib: Library): Read
    requires obj.Read? && key.Done?
  {
    var value := MemberOf(obj.value, key.value, lib);
    if value.Some? then Read(value.value, true, key.reports)
    else Read(V.Null, false, key.reports + if obj.found then [PathOf(n, lib)] else [])
  }

  // ── Chains ────────────────────────────────────────────────────────────────

  /** A link of a chain: a name, or a literal in brackets. */
  datatype Key = Name(name: string) | Bracketed(literal: Literal)

  function Linked(target: Node, key: Key): Node {
    if key.Name? then Member(target, key.name) else Index(target, Lit(key.literal))
  }

  function Chain(base: Node, keys: seq<Key>): Node {
    if keys == [] then base else Linked(Chain(base, keys[..|keys| - 1]), keys[|keys| - 1])
  }

  function KeyValue(key: Key, lib: Library): V.Value {
    if key.Name? then V.Str(key.name) else LiteralValue(key.literal, lib)
  }

  /** Where following the links of a chain, from the left, ends: at a value, or
      at the first link that is not there. */
  datatype Walked = There(value: V.Value) | Gone(at: nat)

  function Walk(v: V.Value, keys: seq<Key>, lib: Library): (w: Walked)
    ensures w.Gone? ==> w.at < |keys|
    decreases |keys|
  {
    if keys == [] then There(v)
    else
      var next := MemberOf(v, KeyValue(keys[0], lib), lib);
      if next.None? then Gone(0)
      else
        var rest := Walk(next.value, keys[1..], lib);
        if rest.Gone? then Gone(rest.at + 1) else rest
  }

  lemma {:induction false} WalkLast(v: V.Value, keys: seq<Key>, lib: Library)
    requires keys != []
    ensures var n := |keys| - 1;
            var before := Walk(v, keys[..n], lib);
            Walk(v, keys, lib) ==
            if before.Gone? then before
            else
              var last := MemberOf(before.value, KeyValue(keys[n], lib), lib);
              if last.Some? then There(last.value) else Gone(n)
    decreases |keys|
  {
    var n := |keys| - 1;
    if n > 0 {
      var next := MemberOf(v, KeyValue(keys[0], lib), lib);
      assert keys[..n][1..] == keys[1..][..n - 1];
      if next.Some? {
        WalkLast(next.value, keys[1..], lib);
      }
    }
  }

  /** What reading a chain comes to by its walk: no report where everything is
      there, else one, of the part up to the first link that is not. */
  function ByWalk(base: Node, keys: seq<Key>, o: Outcome, lib: Library): Read {
    if o.Failed? then Raised(o.reports)
    else
      var w := Walk(o.value, keys, lib);
      if w.There? then Read(w.value, true, o.reports)
      else Read(V.Null, false, o.reports + [PathOf(Chain(base, keys[..w.at + 1]), lib)])
  }

  /** What is read a member of. */
  function Target(target: Node, scope: Scope, lib: Library): Read {
    if IsRead(target) then ReadMember(target, scope, lib) else AsRead(Evaluate(target, scope, lib))
  }

  lemma ReadsLink(target: Node, key: Key, scope: Scope, lib: Library)
    ensures var obj := Target(target, scope, lib);
            ReadMember(Linked(target, key), scope, lib) ==
            if obj.Raised? then obj else Look(Linked(target, key), obj, Done(KeyValue(key, lib), obj.reports), lib)
  {
    var obj := Target(target, scope, lib);
    assert obj.reports + [] == obj.reports;
    if key.Bracketed? {
      assert Evaluate(Lit(key.literal), scope, lib) == Done(LiteralValue(key.literal, lib), []);
    }
  }

  /** Past a link that is gone, nothing is there and nothing more is told. */
  lemma LooksPastGone(base: Node, keys: seq<Key>, o: Outcome, lib: Library)
    requires keys != [] && o.Done? && Walk(o.value, keys[..|keys| - 1], lib).Gone?
    ensures var n := |keys| - 1;
            var obj := ByWalk(base, keys[..n], o, lib);
            ByWalk(base, keys, o, lib) == obj &&
            Look(Chain(base, keys), obj, Done(KeyValue(keys[n], lib), obj.reports), lib) == obj
  {
    var n := |keys| - 1;
    var w := Walk(o.value, keys[..n], lib);
    WalkLast(o.value, keys, lib);
    assert keys[..n][..w.at + 1] == keys[..w.at + 1];
    var reports := ByWalk(base, keys[..n], o, lib).reports;
    assert reports + [] == reports;
  }

  /** A walk with one link more looks that link up, unless one was gone before. */
  lemma WalksLink(base: Node, keys: seq<Key>, o: Outcome, lib: Library)
    requires keys != []
    ensures var n := |keys| - 1;
            var obj := ByWalk(base, keys[..n], o, lib);
            ByWalk(base, keys, o, lib) ==
            if obj.Raised? then obj else Look(Chain(base, keys), obj, Done(KeyValue(keys[n], lib), obj.reports), lib)
  {
    if o.Done? {
      var n := |keys| - 1;
      if Walk(o.value, keys[..n], lib).Gone? {
        LooksPastGone(base, keys, o, lib);
      } else {
        WalkLast(o.value, keys, lib);
        assert keys[..n + 1] == keys;
      }
    }
  }

  lemma {:induction false} ReadsByWalk(base: Node, keys: seq<Key>, scope: Scope, lib: Library)
    requires !IsRead(base)
    ensures Target(Chain(base, keys), scope, lib) == ByWalk(base, keys, Evaluate(base, scope, lib), lib)
    decreases |keys|
  {
    if keys != [] {
      var n := |keys| - 1;
      ReadsByWalk(base, keys[..n], scope, lib);
      ReadsLink(Chain(base, keys[..n]), keys[n], scope, lib);
      WalksLink(base, keys, Evaluate(base, scope, lib), lib);
    }
  }

  /** A chain of names and literal keys reports at most one read, exactly when
      some link is not there, and then the one up to the first such link. */
  lemma MissingReadsAreNamedOnce(base: Node, keys: seq<Key>, scope: Scope, lib: Library)
    requires !IsRead(base) && keys != []
    ensures Evaluate(Chain(base, keys), scope, lib) == ValueOf(ByWalk(base, keys, Evaluate(base, scope, lib), lib))
  {
    ReadsByWalk(base, keys, scope, lib);
  }
}
