/** Expressions compiled to code with jumps for a machine with a stack: a second
    account of what evaluating them gives, reports and raises. */
module ExpressionMachine {
  import opened Strings
  import opened ExpressionTree
  import opened ExpressionEvaluation
  import V = Values

  datatype Instruction =
    | Push(value: V.Value)
    | Load(name: string)
    | Fail
    | Settle
    | Collect(count: nat)
    | Apply(name: string, count: nat)
    | Negate
    | Sign(op: string)
    | Operate(op: string)
    | Jump(over: nat)
    | Branch(over: nat)
    | Unless(truth: bool, over: nat)
    | Fetch(path: string)

  type Code = seq<Instruction>

  /** A value, and whether it was found where it was last looked for. */
  datatype Cell = Cell(value: V.Value, found: bool)

  datatype Machine = Machine(stack: seq<Cell>, reports: seq<string>)

  datatype Halted = Halted(machine: Machine) | Crashed(reports: seq<string>) | Stuck

  /** What code is run in. */
  datatype Env = Env(scope: Scope, lib: Library)

  // ── The machine ───────────────────────────────────────────────────────────

  /** `false`, null, 0 and the empty text, and nothing else. */
  predicate IsFalsy(v: V.Value) {
    v in [V.Bool(false), V.Null, V.Int(0), V.Real(0.0), V.Str("")]
  }

  function Pushed(m: Machine, v: V.Value): Machine { m.(stack := m.stack + [Cell(v, true)]) }

  function Top(m: Machine): Cell
    requires m.stack != []
  {
    m.stack[|m.stack| - 1]
  }

  function Dropped(m: Machine, n: nat): Machine
    requires n <= |m.stack|
  {
    m.(stack := m.stack[..|m.stack| - n])
  }

  function ValuesOf(cells: seq<Cell>): (vs: seq<V.Value>)
    ensures |vs| == |cells|
  {
    if cells == [] then [] else [cells[0].value] + ValuesOf(cells[1..])
  }

  function Last(m: Machine, n: nat): seq<V.Value>
    requires n <= |m.stack|
  {
    ValuesOf(m.stack[|m.stack| - n..])
  }

  /** Looking a key up, which reports unless what it is looked up in is itself
      something that was not found. */
  function Fetched(m: Machine, path: string, lib: Library): Machine
    requires |m.stack| >= 2
  {
    var obj, key := m.stack[|m.stack| - 2], Top(m).value;
    var member := MemberOf(obj.value, key, lib);
    var rest := Dropped(m, 2);
    if member.Some? then Pushed(rest, member.value)
    else Machine(rest.stack + [Cell(V.Null, false)], rest.reports + if obj.found then [path] else [])
  }

  /** Runs code to its end; a jump goes forward over so many instructions. */
  function Run(code: Code, m: Machine, env: Env): Halted
    decreases |code|
  {
    if code == [] then Halted(m)
    else
      var next, depth := code[1..], |m.stack|;
      match code[0]
      case Push(v) => Run(next, Pushed(m, v), env)
      case Load(name) =>
        if name in env.scope then Run(next, Pushed(m, env.scope[name]), env)
        else if name in env.lib.builtins then Crashed(m.reports)
        else Run(next, Pushed(m, V.Null), env)
      case Fail => Crashed(m.reports)
      case Settle => if depth < 1 then Stuck else Run(next, Pushed(Dropped(m, 1), Top(m).value), env)
      case Collect(n) => if depth < n then Stuck else Run(next, Pushed(Dropped(m, n), V.List(Last(m, n))), env)
      case Apply(name, n) =>
        if depth < n then Stuck
        else
          var result := env.lib.call(name, Last(m, n));
          if result.None? then Crashed(m.reports) else Run(next, Pushed(Dropped(m, n), result.value), env)
      case Negate => if depth < 1 then Stuck else Run(next, Pushed(Dropped(m, 1), V.Bool(IsFalsy(Top(m).value))), env)
      case Sign(op) => if depth < 1 then Stuck else Run(next, Pushed(Dropped(m, 1), env.lib.signed(op, Top(m).value)), env)
      case Operate(op) =>
        if depth < 2 then Stuck
        else Run(next, Pushed(Dropped(m, 2), env.lib.infix(op, m.stack[depth - 2].value, Top(m).value)), env)
      case Jump(n) => if |next| < n then Stuck else Run(next[n..], m, env)
      case Branch(n) =>
        if depth < 1 || |next| < n then Stuck
        else Run(if IsFalsy(Top(m).value) then next[n..] else next, Dropped(m, 1), env)
      case Unless(truth, n) =>
        if depth < 1 || |next| < n then Stuck
        else if IsFalsy(Top(m).value) == truth then Run(next[n..], m, env)
        else Run(next, Dropped(m, 1), env)
      case Fetch(path) => if depth < 2 then Stuck else Run(next, Fetched(m, path, env.lib), env)
  }

  // ── The compiler ──────────────────────────────────────────────────────────

  /** A member read that is no part of a longer one settles: whether it was found
      is of no further concern. */
  function Compile(n: Node, lib: Library): Code
    decreases n, 1
  {
    match n
    case Lit(v) => [Push(LiteralValue(v, lib))]
    case Ident(name) => [Load(name)]
    case Member(_, _) => CompileRead(n, lib) + [Settle]
    case Index(_, _) => CompileRead(n, lib) + [Settle]
    case Array(items) => CompileAll(items, lib) + [Collect(|items|)]
    case Call(callee, args) =>
      var name := CalleeName(callee);
      if name.None? || name.value !in lib.builtins then [Fail] else CompileAll(args, lib) + [Apply(name.value, |args|)]
    case Unary(op, x) => Compile(x, lib) + [if op == "!" then Negate else Sign(op)]
    case Infix(op, l, r) =>
      var right := Compile(r, lib);
      if op == "&&" || op == "and" then Compile(l, lib) + ([Unless(true, |right|)] + right)
      else if op == "||" || op == "or" then Compile(l, lib) + ([Unless(false, |right|)] + right)
      else Compile(l, lib) + (right + [Operate(op)])
    case Conditional(t, c, a) =>
      var consequent, alternate := Compile(c, lib), Compile(a, lib);
      Compile(t, lib) + ([Branch(|consequent| + 1)] + (consequent + ([Jump(|alternate|)] + alternate)))
  }

  function CompileAll(ns: seq<Node>, lib: Library): Code
    decreases ns
  {
    if ns == [] then [] else Compile(ns[0], lib) + CompileAll(ns[1..], lib)
  }

  function CompileRead(n: Node, lib: Library): Code
    requires IsRead(n)
    decreases n, 0
  {
    var target := if IsRead(n.target) then CompileRead(n.target, lib) else Compile(n.target, lib);
    var key := if n.Index? then Compile(n.key, lib) else [Push(V.Str(n.name))];
    target + (key + [Fetch(PathOf(n, lib))])
  }

  // ── The machine does what evaluation does ─────────────────────────────────

  function Reporting(m: Machine, reports: seq<string>): Machine { m.(reports := m.reports + reports) }

  /** Going on with what an evaluation came to. */
  function Onward(o: Outcome, rest: Code, m: Machine, env: Env): Halted {
    if o.Failed? then Crashed(m.reports + o.reports) else Run(rest, Pushed(Reporting(m, o.reports), o.value), env)
  }

  function OnwardRead(r: Read, rest: Code, m: Machine, env: Env): Halted {
    if r.Raised? then Crashed(m.reports + r.reports)
    else Run(rest, Machine(m.stack + [Cell(r.value, r.found)], m.reports + r.reports), env)
  }

  function Cells(values: seq<V.Value>): seq<Cell> {
    if values == [] then [] else [Cell(values[0], true)] + Cells(values[1..])
  }

  function OnwardAll(values: seq<V.Value>, reports: seq<string>, raised: bool, rest: Code, m: Machine, env: Env): Halted {
    if raised then Crashed(m.reports + reports)
    else Run(rest, Machine(m.stack + Cells(values), m.reports + reports), env)
  }

  predicate Departs(code: Code, rest: Code, m: Machine, env: Env, h: Halted) { Run(code + rest, m, env) != h }

  /** Running the code, with more to run behind it, comes to this. */
  predicate Comes(code: Code, rest: Code, m: Machine, env: Env, h: Halted) { !Departs(code, rest, m, env, h) }

  lemma One(i: Instruction, rest: Code)
    ensures ([i] + rest)[0] == i && ([i] + rest)[1..] == rest
  {
  }

  lemma TruthIsNotFalsy(v: V.Value)
    ensures IsTruthy(v) <==> !IsFalsy(v)
  {
  }

  lemma Composed(a: Code, b: Code, rest: Code, m: Machine, env: Env, h: Halted)
    requires Comes(a, b + rest, m, env, h)
    ensures Comes(a + b, rest, m, env, h)
  {
    Regroup(a, b, rest);
  }

  // Single instructions.

  lemma Pushes(v: V.Value, rest: Code, m: Machine, env: Env)
    ensures Comes([Push(v)], rest, m, env, Run(rest, Pushed(m, v), env))
  {
    One(Push(v), rest);
  }

  lemma Loads(name: string, rest: Code, m: Machine, env: Env)
    ensures Comes([Load(name)], rest, m, env, Onward(Evaluate(Ident(name), env.scope, env.lib), rest, m, env))
  {
    One(Load(name), rest);
    assert m.reports + [] == m.reports;
  }

  lemma Fails(rest: Code, m: Machine, env: Env)
    ensures Comes([Fail], rest, m, env, Crashed(m.reports))
  {
    One(Fail, rest);
  }

  /** An instruction that makes one value of the topmost. */
  predicate IsSimple(i: Instruction) { i.Settle? || i.Negate? || i.Sign? }

  function Made(i: Instruction, v: V.Value, lib: Library): V.Value
    requires IsSimple(i)
  {
    match i
    case Settle => v
    case Negate => V.Bool(IsFalsy(v))
    case Sign(op) => lib.signed(op, v)
  }

  lemma Makes(i: Instruction, c: Cell, rest: Code, m: Machine, env: Env)
    requires IsSimple(i)
    ensures Comes([i], rest, m.(stack := m.stack + [c]), env, Run(rest, Pushed(m, Made(i, c.value, env.lib)), env))
  {
    One(i, rest);
    var full := m.(stack := m.stack + [c]);
    assert Dropped(full, 1) == m && Top(full) == c;
  }

  lemma Operates(op: string, l: V.Value, r: V.Value, rest: Code, m: Machine, env: Env)
    ensures Comes([Operate(op)], rest, Pushed(Pushed(m, l), r), env, Run(rest, Pushed(m, env.lib.infix(op, l, r)), env))
  {
    One(Operate(op), rest);
    var full := Pushed(Pushed(m, l), r);
    assert Dropped(full, 2) == m && Top(full).value == r && full.stack[|full.stack| - 2].value == l;
  }

  lemma Fetches(path: string, obj: Cell, key: V.Value, rest: Code, m: Machine, env: Env)
    ensures var full := Pushed(m.(stack := m.stack + [obj]), key);
            var member := MemberOf(obj.value, key, env.lib);
            var after := if member.Some? then Pushed(m, member.value)
                         else Machine(m.stack + [Cell(V.Null, false)], m.reports + if obj.found then [path] else []);
            Comes([Fetch(path)], rest, full, env, Run(rest, after, env))
  {
    One(Fetch(path), rest);
    var full := Pushed(m.(stack := m.stack + [obj]), key);
    assert Dropped(full, 2) == m && Top(full).value == key && full.stack[|full.stack| - 2] == obj;
  }

  lemma {:induction false} ValuesOfCells(values: seq<V.Value>)
    ensures |Cells(values)| == |values| && ValuesOf(Cells(values)) == values
  {
    if values != [] {
      ValuesOfCells(values[1..]);
      assert Cells(values)[1..] == Cells(values[1..]);
    }
  }

  lemma LastOf(m: Machine, values: seq<V.Value>)
    ensures var full := m.(stack := m.stack + Cells(values));
            |values| <= |full.stack| && Last(full, |values|) == values && Dropped(full, |values|) == m
  {
    ValuesOfCells(values);
    var full := m.(stack := m.stack + Cells(values));
    assert full.stack[|full.stack| - |values|..] == Cells(values);
    assert full.stack[..|full.stack| - |values|] == m.stack;
  }

  lemma Collects(values: seq<V.Value>, rest: Code, m: Machine, env: Env)
    ensures Comes([Collect(|values|)], rest, m.(stack := m.stack + Cells(values)), env, Run(rest, Pushed(m, V.List(values)), env))
  {
    One(Collect(|values|), rest);
    LastOf(m, values);
  }

  lemma AppliesTo(name: string, values: seq<V.Value>, rest: Code, m: Machine, env: Env)
    ensures var result := env.lib.call(name, values);
            Comes([Apply(name, |values|)], rest, m.(stack := m.stack + Cells(values)), env,
                  if result.None? then Crashed(m.reports) else Run(rest, Pushed(m, result.value), env))
  {
    One(Apply(name, |values|), rest);
    LastOf(m, values);
  }

  lemma Jumps(skipped: Code, rest: Code, m: Machine, env: Env)
    ensures Comes([Jump(|skipped|)] + skipped, rest, m, env, Run(rest, m, env))
  {
    Regroup([Jump(|skipped|)], skipped, rest);
    One(Jump(|skipped|), skipped + rest);
    assert (skipped + rest)[|skipped|..] == rest;
  }

  lemma Branches(skipped: Code, v: V.Value, rest: Code, m: Machine, env: Env)
    ensures Comes([Branch(|skipped|)] + skipped, rest, Pushed(m, v), env,
                  if IsFalsy(v) then Run(rest, m, env) else Run(skipped + rest, m, env))
  {
    Regroup([Branch(|skipped|)], skipped, rest);
    One(Branch(|skipped|), skipped + rest);
    assert (skipped + rest)[|skipped|..] == rest;
    assert Dropped(Pushed(m, v), 1) == m && Top(Pushed(m, v)).value == v;
  }

  lemma Keeps(truth: bool, skipped: Code, v: V.Value, rest: Code, m: Machine, env: Env)
    ensures Comes([Unless(truth, |skipped|)] + skipped, rest, Pushed(m, v), env,
                  if IsFalsy(v) == truth then Run(rest, Pushed(m, v), env) else Run(skipped + rest, m, env))
  {
    Regroup([Unless(truth, |skipped|)], skipped, rest);
    One(Unless(truth, |skipped|), skipped + rest);
    assert (skipped + rest)[|skipped|..] == rest;
    assert Dropped(Pushed(m, v), 1) == m && Top(Pushed(m, v)).value == v;
  }

  // Evaluations one after the other.

  lemma OnwardNoting(before: seq<string>, o: Outcome, rest: Code, m: Machine, env: Env)
    ensures Onward(o, rest, Reporting(m, before), env) == Onward(Noting(before, o), rest, m, env)
  {
    Regroup(m.reports, before, o.reports);
  }

  lemma AsReadGoesOn(o: Outcome, rest: Code, m: Machine, env: Env)
    ensures OnwardRead(AsRead(o), rest, m, env) == Onward(o, rest, m, env)
  {
  }

  /** Running the code of a tree does what evaluating the tree does, and goes on
      with its value on top of the stack. */
  lemma {:induction false} RunsAs(n: Node, rest: Code, m: Machine, env: Env)
    ensures Comes(Compile(n, env.lib), rest, m, env, Onward(Evaluate(n, env.scope, env.lib), rest, m, env))
    decreases n, 1
  {
    match n
    case Lit(v) =>
      Pushes(LiteralValue(v, env.lib), rest, m, env);
      assert Reporting(m, []) == m;
    case Ident(name) => Loads(name, rest, m, env);
    case Member(_, _) =>
      RunsRead(n, [Settle] + rest, m, env);
      SettlesRead(CompileRead(n, env.lib), ReadMember(n, env.scope, env.lib), rest, m, env);
    case Index(_, _) =>
      RunsRead(n, [Settle] + rest, m, env);
      SettlesRead(CompileRead(n, env.lib), ReadMember(n, env.scope, env.lib), rest, m, env);
    case Array(items) =>
      RunsAll(items, [Collect(|items|)] + rest, m, env);
      var (values, reports, raised) := EvaluateAll(items, env.scope, env.lib);
      CollectsAll(CompileAll(items, env.lib), |items|, values, reports, raised, rest, m, env);
      ArrayIs(items, env);
    case Call(callee, args) =>
      if CalleeName(callee).Some? && CalleeName(callee).value in env.lib.builtins {
        RunsAll(args, [Apply(CalleeName(callee).value, |args|)] + rest, m, env);
        RunsCall(callee, args, rest, m, env);
      } else {
        Fails(rest, m, env);
        assert m.reports + [] == m.reports;
      }
    case Unary(op, x) =>
      RunsAs(x, [if op == "!" then Negate else Sign(op)] + rest, m, env);
      RunsUnary(op, x, rest, m, env);
    case Infix(op, l, r) =>
      var left := Evaluate(l, env.scope, env.lib);
      RunsAs(l, Behind(op, r, env.lib) + rest, m, env);
      if left.Done? {
        if IsLogical(op) {
          RunsAs(r, rest, Reporting(m, left.reports), env);
        } else {
          RunsAs(r, [Operate(op)] + rest, Pushed(Reporting(m, left.reports), left.value), env);
        }
      }
      RunsInfix(op, l, r, rest, m, env);
    case Conditional(t, c, a) =>
      var test := Evaluate(t, env.scope, env.lib);
      RunsAs(t, Choice(c, a, env.lib) + rest, m, env);
      if test.Done? {
        RunsAs(c, [Jump(|Compile(a, env.lib)|)] + Compile(a, env.lib) + rest, Reporting(m, test.reports), env);
        RunsAs(a, rest, Reporting(m, test.reports), env);
      }
      RunsConditional(t, c, a, rest, m, env);
  }

  lemma SettlesRead(code: Code, r: Read, rest: Code, m: Machine, env: Env)
    requires Comes(code, [Settle] + rest, m, env, OnwardRead(r, [Settle] + rest, m, env))
    ensures Comes(code + [Settle], rest, m, env, Onward(ValueOf(r), rest, m, env))
  {
    if r.Read? {
      Makes(Settle, Cell(r.value, r.found), rest, Reporting(m, r.reports), env);
    }
    Composed(code, [Settle], rest, m, env, Onward(ValueOf(r), rest, m, env));
  }

  lemma RunsUnary(op: string, x: Node, rest: Code, m: Machine, env: Env)
    requires var i := if op == "!" then Negate else Sign(op);
             Comes(Compile(x, env.lib), [i] + rest, m, env, Onward(Evaluate(x, env.scope, env.lib), [i] + rest, m, env))
    ensures Comes(Compile(Unary(op, x), env.lib), rest, m, env, Onward(Evaluate(Unary(op, x), env.scope, env.lib), rest, m, env))
  {
    var i, o := if op == "!" then Negate else Sign(op), Evaluate(x, env.scope, env.lib);
    if o.Done? {
      TruthIsNotFalsy(o.value);
      Makes(i, Cell(o.value, true), rest, Reporting(m, o.reports), env);
    }
    Composed(Compile(x, env.lib), [i], rest, m, env, Onward(Evaluate(Unary(op, x), env.scope, env.lib), rest, m, env));
  }

  lemma ArrayIs(items: seq<Node>, env: Env)
    ensures var (values, reports, raised) := EvaluateAll(items, env.scope, env.lib);
            Evaluate(Array(items), env.scope, env.lib) == Listed(values, reports, raised)
  {
  }

  function Listed(values: seq<V.Value>, reports: seq<string>, raised: bool): Outcome {
    if raised then Failed(reports) else Done(V.List(values), reports)
  }

  lemma CollectsAll(code: Code, count: nat, values: seq<V.Value>, reports: seq<string>, raised: bool,
                    rest: Code, m: Machine, env: Env)
    requires raised || |values| == count
    requires Comes(code, [Collect(count)] + rest, m, env, OnwardAll(values, reports, raised, [Collect(count)] + rest, m, env))
    ensures Comes(code + [Collect(count)], rest, m, env, Onward(Listed(values, reports, raised), rest, m, env))
  {
    if !raised {
      Collects(values, rest, Reporting(m, reports), env);
    }
    Composed(code, [Collect(count)], rest, m, env, Onward(Listed(values, reports, raised), rest, m, env));
  }

  lemma RunsCall(callee: Node, args: seq<Node>, rest: Code, m: Machine, env: Env)
    requires CalleeName(callee).Some? && CalleeName(callee).value in env.lib.builtins
    requires var (values, reports, raised) := EvaluateAll(args, env.scope, env.lib);
             && (raised || |values| == |args|)
             && var apply := [Apply(CalleeName(callee).value, |args|)] + rest;
                Comes(CompileAll(args, env.lib), apply, m, env, OnwardAll(values, reports, raised, apply, m, env))
    ensures Comes(Compile(Call(callee, args), env.lib), rest, m, env,
                  Onward(Evaluate(Call(callee, args), env.scope, env.lib), rest, m, env))
  {
    var (values, reports, raised) := EvaluateAll(args, env.scope, env.lib);
    if !raised {
      AppliesTo(CalleeName(callee).value, values, rest, Reporting(m, reports), env);
    }
    Composed(CompileAll(args, env.lib), [Apply(CalleeName(callee).value, |args|)], rest, m, env,
             Onward(Evaluate(Call(callee, args), env.scope, env.lib), rest, m, env));
  }

  /** The code behind an operator's left operand. */
  function Behind(op: string, r: Node, lib: Library): Code {
    var right := Compile(r, lib);
    if op == "&&" || op == "and" then [Unless(true, |right|)] + right
    else if op == "||" || op == "or" then [Unless(false, |right|)] + right
    else right + [Operate(op)]
  }

  lemma RunsInfix(op: string, l: Node, r: Node, rest: Code, m: Machine, env: Env)
    requires var left, behind := Evaluate(l, env.scope, env.lib), Behind(op, r, env.lib) + rest;
             var right, then_ := Compile(r, env.lib), Reporting(m, left.reports);
             && Comes(Compile(l, env.lib), behind, m, env, Onward(left, behind, m, env))
             && (left.Done? && IsLogical(op) ==>
                   Comes(right, rest, then_, env, Onward(Evaluate(r, env.scope, env.lib), rest, then_, env)))
             && (left.Done? && !IsLogical(op) ==>
                   var operate, held := [Operate(op)] + rest, Pushed(then_, left.value);
                   Comes(right, operate, held, env, Onward(Evaluate(r, env.scope, env.lib), operate, held, env)))
    ensures Comes(Compile(Infix(op, l, r), env.lib), rest, m, env,
                  Onward(Evaluate(Infix(op, l, r), env.scope, env.lib), rest, m, env))
  {
    var left, right := Evaluate(l, env.scope, env.lib), Evaluate(r, env.scope, env.lib);
    var whole := Onward(Evaluate(Infix(op, l, r), env.scope, env.lib), rest, m, env);
    if left.Done? {
      var m1 := Reporting(m, left.reports);
      TruthIsNotFalsy(left.value);
      OnwardNoting(left.reports, right, rest, m, env);
      if IsLogical(op) {
        Keeps(op in ["&&", "and"], Compile(r, env.lib), left.value, rest, m1, env);
      } else {
        OperandsOperate(op, left, right, Compile(r, env.lib), rest, m, env);
      }
    }
    Composed(Compile(l, env.lib), Behind(op, r, env.lib), rest, m, env, whole);
  }

  lemma OperandsOperate(op: string, left: Outcome, right: Outcome, code: Code, rest: Code, m: Machine, env: Env)
    requires left.Done?
    requires var operate, held := [Operate(op)] + rest, Pushed(Reporting(m, left.reports), left.value);
             Comes(code, operate, held, env, Onward(right, operate, held, env))
    ensures var both := Noting(left.reports, right);
            var whole := if both.Failed? then both else Done(env.lib.infix(op, left.value, both.value), both.reports);
            Comes(code + [Operate(op)], rest, Pushed(Reporting(m, left.reports), left.value), env, Onward(whole, rest, m, env))
  {
    var held := Pushed(Reporting(m, left.reports), left.value);
    var both := Noting(left.reports, right);
    var whole := if both.Failed? then both else Done(env.lib.infix(op, left.value, both.value), both.reports);
    Regroup(m.reports, left.reports, right.reports);
    if right.Done? {
      Operates(op, left.value, right.value, rest, Reporting(m, both.reports), env);
      assert Pushed(Reporting(held, right.reports), right.value) ==
             Pushed(Pushed(Reporting(m, both.reports), left.value), right.value);
    }
    Composed(code, [Operate(op)], rest, held, env, Onward(whole, rest, m, env));
  }

  /** The code behind a test. */
  function Choice(c: Node, a: Node, lib: Library): Code {
    var consequent, alternate := Compile(c, lib), Compile(a, lib);
    [Branch(|consequent| + 1)] + (consequent + ([Jump(|alternate|)] + alternate))
  }

  lemma RunsConditional(t: Node, c: Node, a: Node, rest: Code, m: Machine, env: Env)
    requires var test, choice := Evaluate(t, env.scope, env.lib), Choice(c, a, env.lib) + rest;
             var alternate, m1 := Compile(a, env.lib), Reporting(m, test.reports);
             var jump := [Jump(|alternate|)] + alternate + rest;
             && Comes(Compile(t, env.lib), choice, m, env, Onward(test, choice, m, env))
             && (test.Done? ==>
                   && Comes(Compile(c, env.lib), jump, m1, env, Onward(Evaluate(c, env.scope, env.lib), jump, m1, env))
                   && Comes(alternate, rest, m1, env, Onward(Evaluate(a, env.scope, env.lib), rest, m1, env)))
    ensures Comes(Compile(Conditional(t, c, a), env.lib), rest, m, env,
                  Onward(Evaluate(Conditional(t, c, a), env.scope, env.lib), rest, m, env))
  {
    var test, o, p := Evaluate(t, env.scope, env.lib), Evaluate(c, env.scope, env.lib), Evaluate(a, env.scope, env.lib);
    ConditionalIs(t, c, a, env);
    TestedComes(Compile(t, env.lib), Compile(c, env.lib), Compile(a, env.lib), test, o, p, rest, m, env);
  }

  lemma ConditionalIs(t: Node, c: Node, a: Node, env: Env)
    ensures Compile(Conditional(t, c, a), env.lib) == Compile(t, env.lib) + Choice(c, a, env.lib)
    ensures Evaluate(Conditional(t, c, a), env.scope, env.lib) ==
            Tested(Evaluate(t, env.scope, env.lib), Evaluate(c, env.scope, env.lib), Evaluate(a, env.scope, env.lib))
  {
  }

  function Tested(test: Outcome, o: Outcome, p: Outcome): Outcome {
    if test.Failed? then test else Noting(test.reports, if IsTruthy(test.value) then o else p)
  }

  lemma TestedComes(first: Code, consequent: Code, alternate: Code, test: Outcome, o: Outcome, p: Outcome,
                    rest: Code, m: Machine, env: Env)
    requires var choice := [Branch(|consequent| + 1)] + (consequent + ([Jump(|alternate|)] + alternate)) + rest;
             var jump, m1 := [Jump(|alternate|)] + alternate + rest, Reporting(m, test.reports);
             && Comes(first, choice, m, env, Onward(test, choice, m, env))
             && (test.Done? ==>
                   && Comes(consequent, jump, m1, env, Onward(o, jump, m1, env))
                   && Comes(alternate, rest, m1, env, Onward(p, rest, m1, env)))
    ensures Comes(first + ([Branch(|consequent| + 1)] + (consequent + ([Jump(|alternate|)] + alternate))), rest, m, env,
                  Onward(Tested(test, o, p), rest, m, env))
  {
    if test.Done? {
      ChoosesNoting(consequent, alternate, test, o, p, rest, m, env);
    }
    Composed(first, [Branch(|consequent| + 1)] + (consequent + ([Jump(|alternate|)] + alternate)), rest, m, env,
             Onward(Tested(test, o, p), rest, m, env));
  }

  lemma ChoosesNoting(consequent: Code, alternate: Code, test: Outcome, o: Outcome, p: Outcome, rest: Code, m: Machine, env: Env)
    requires test.Done?
    requires var jump, m1 := [Jump(|alternate|)] + alternate + rest, Reporting(m, test.reports);
             Comes(consequent, jump, m1, env, Onward(o, jump, m1, env)) && Comes(alternate, rest, m1, env, Onward(p, rest, m1, env))
    ensures Comes([Branch(|consequent| + 1)] + (consequent + ([Jump(|alternate|)] + alternate)), rest,
                  Pushed(Reporting(m, test.reports), test.value), env,
                  Onward(Noting(test.reports, if IsTruthy(test.value) then o else p), rest, m, env))
  {
    TruthIsNotFalsy(test.value);
    OnwardNoting(test.reports, o, rest, m, env);
    OnwardNoting(test.reports, p, rest, m, env);
    Chooses(consequent, alternate, test.value, o, p, rest, Reporting(m, test.reports), env);
  }

  lemma Chooses(consequent: Code, alternate: Code, v: V.Value, o: Outcome, p: Outcome, rest: Code, m: Machine, env: Env)
    requires var jump := [Jump(|alternate|)] + alternate + rest;
             Comes(consequent, jump, m, env, Onward(o, jump, m, env)) && Comes(alternate, rest, m, env, Onward(p, rest, m, env))
    ensures Comes([Branch(|consequent| + 1)] + (consequent + ([Jump(|alternate|)] + alternate)), rest, Pushed(m, v), env,
                  Onward(if IsFalsy(v) then p else o, rest, m, env))
  {
    var first := consequent + [Jump(|alternate|)];
    var jump := [Jump(|alternate|)] + alternate;
    Regroup(consequent, [Jump(|alternate|)], alternate);
    Regroup([Branch(|first|)], first, alternate);
    Branches(first, v, alternate + rest, m, env);
    Regroup([Branch(|first|)] + first, alternate, rest);
    Regroup(first, alternate, rest);
    Regroup(consequent, jump, rest);
    if o.Done? {
      Jumps(alternate, rest, Pushed(Reporting(m, o.reports), o.value), env);
    }
  }

  lemma {:induction false} RunsAll(ns: seq<Node>, rest: Code, m: Machine, env: Env)
    ensures var (values, reports, raised) := EvaluateAll(ns, env.scope, env.lib);
            && (raised || |values| == |ns|)
            && Comes(CompileAll(ns, env.lib), rest, m, env, OnwardAll(values, reports, raised, rest, m, env))
    decreases ns
  {
    if ns == [] {
      assert m.stack + [] == m.stack && m.reports + [] == m.reports;
      assert [] + rest == rest;
    } else {
      var first := Evaluate(ns[0], env.scope, env.lib);
      var more := CompileAll(ns[1..], env.lib);
      RunsAs(ns[0], more + rest, m, env);
      if first.Done? {
        RunsAll(ns[1..], rest, Pushed(Reporting(m, first.reports), first.value), env);
        var (values, reports, raised) := EvaluateAll(ns[1..], env.scope, env.lib);
        OneMoreCell(first.value, values, first.reports, reports, raised, rest, m, env);
      }
      var (values, reports, raised) := EvaluateAll(ns, env.scope, env.lib);
      Composed(Compile(ns[0], env.lib), more, rest, m, env, OnwardAll(values, reports, raised, rest, m, env));
    }
  }

  lemma OneMoreCell(v: V.Value, values: seq<V.Value>, before: seq<string>, reports: seq<string>, raised: bool,
                    rest: Code, m: Machine, env: Env)
    ensures OnwardAll(values, reports, raised, rest, Pushed(Reporting(m, before), v), env) ==
            OnwardAll([v] + values, before + reports, raised, rest, m, env)
  {
    Regroup(m.reports, before, reports);
    assert ([v] + values)[1..] == values;
    Regroup(m.stack, [Cell(v, true)], Cells(values));
  }

  lemma {:induction false} RunsRead(n: Node, rest: Code, m: Machine, env: Env)
    requires IsRead(n)
    ensures Comes(CompileRead(n, env.lib), rest, m, env, OnwardRead(ReadMember(n, env.scope, env.lib), rest, m, env))
    decreases n, 0
  {
    var fetch := [Fetch(PathOf(n, env.lib))];
    var key := if n.Index? then Compile(n.key, env.lib) else [Push(V.Str(n.name))];
    var obj := Target(n.target, env.scope, env.lib);
    var behind := key + fetch + rest;
    if IsRead(n.target) {
      RunsRead(n.target, behind, m, env);
    } else {
      RunsAs(n.target, behind, m, env);
      AsReadGoesOn(Evaluate(n.target, env.scope, env.lib), behind, m, env);
    }
    if obj.Read? {
      var m1 := Holding(m, obj);
      if n.Index? {
        RunsAs(n.key, fetch + rest, m1, env);
      } else {
        Pushes(V.Str(n.name), fetch + rest, m1, env);
        assert Reporting(m1, []) == m1;
      }
    }
    ReadsOn(n, obj, rest, m, env);
  }

  /** What a read looks up, and with which key. */
  function KeyOf(n: Node, env: Env): Outcome
    requires IsRead(n)
  {
    if n.Index? then Evaluate(n.key, env.scope, env.lib) else Done(V.Str(n.name), [])
  }

  function KeyCode(n: Node, lib: Library): Code
    requires IsRead(n)
  {
    if n.Index? then Compile(n.key, lib) else [Push(V.Str(n.name))]
  }

  function Holding(m: Machine, obj: Read): Machine
    requires obj.Read?
  {
    Machine(m.stack + [Cell(obj.value, obj.found)], m.reports + obj.reports)
  }

  /** With the object and the key on the stack, looking up is what `Look` says. */
  lemma LooksUp(n: Node, obj: Read, key: V.Value, reports: seq<string>, rest: Code, m: Machine, env: Env)
    requires IsRead(n) && obj.Read?
    ensures Comes([Fetch(PathOf(n, env.lib))], rest, Pushed(Reporting(Holding(m, obj), reports), key), env,
                  OnwardRead(Look(n, obj, Done(key, obj.reports + reports), env.lib), rest, m, env))
  {
    var base := Reporting(m, obj.reports + reports);
    Regroup(m.reports, obj.reports, reports);
    Fetches(PathOf(n, env.lib), Cell(obj.value, obj.found), key, rest, base, env);
    assert Reporting(Holding(m, obj), reports) == base.(stack := base.stack + [Cell(obj.value, obj.found)]);
    Regroup(m.reports, obj.reports + reports, if obj.found then [PathOf(n, env.lib)] else []);
  }

  lemma ReadsOn(n: Node, obj: Read, rest: Code, m: Machine, env: Env)
    requires IsRead(n) && obj == Target(n.target, env.scope, env.lib)
    requires var fetch := [Fetch(PathOf(n, env.lib))];
             var behind := KeyCode(n, env.lib) + fetch + rest;
             && Comes(TargetCode(n.target, env.lib), behind, m, env, OnwardRead(obj, behind, m, env))
             && (obj.Read? ==> Comes(KeyCode(n, env.lib), fetch + rest, Holding(m, obj), env,
                                     Onward(KeyOf(n, env), fetch + rest, Holding(m, obj), env)))
    ensures Comes(CompileRead(n, env.lib), rest, m, env, OnwardRead(ReadMember(n, env.scope, env.lib), rest, m, env))
  {
    var fetch, key := [Fetch(PathOf(n, env.lib))], KeyOf(n, env);
    if obj.Read? {
      Regroup(KeyCode(n, env.lib), fetch, rest);
      Regroup(m.reports, obj.reports, key.reports);
      if key.Done? {
        LooksUp(n, obj, key.value, key.reports, rest, m, env);
      }
    }
    Composed(TargetCode(n.target, env.lib), KeyCode(n, env.lib) + fetch, rest, m, env,
             OnwardRead(ReadMember(n, env.scope, env.lib), rest, m, env));
  }

  function TargetCode(target: Node, lib: Library): Code {
    if IsRead(target) then CompileRead(target, lib) else Compile(target, lib)
  }

  /** What an evaluation is for the machine that did it. */
  function Ended(o: Outcome): Halted {
    if o.Failed? then Crashed(o.reports) else Halted(Machine([Cell(o.value, true)], o.reports))
  }

  /** For every tree: its code, run on an empty stack, halts with the one value
      evaluation gives, or crashes where evaluation fails, with the same reports
      in the same order. */
  lemma CompiledRunsAsEvaluated(n: Node, scope: Scope, lib: Library)
    ensures Run(Compile(n, lib), Machine([], []), Env(scope, lib)) == Ended(Evaluate(n, scope, lib))
  {
    var m, o := Machine([], []), Evaluate(n, scope, lib);
    RunsAs(n, [], m, Env(scope, lib));
    assert Compile(n, lib) + [] == Compile(n, lib);
    assert m.reports + o.reports == o.reports;
  }

  // ── Laws ──────────────────────────────────────────────────────────────────

  /** `false`, null, 0 and the empty text take the alternate, and all else the
      consequent; the other branch is not evaluated. */
  lemma FalsyTakesTheAlternate(t: Node, c: Node, a: Node, scope: Scope, lib: Library)
    ensures var test := Evaluate(t, scope, lib);
            Evaluate(Conditional(t, c, a), scope, lib) ==
            if test.Failed? then test
            else if test.value in [V.Bool(false), V.Null, V.Int(0), V.Real(0.0), V.Str("")]
            then Noting(test.reports, Evaluate(a, scope, lib))
            else Noting(test.reports, Evaluate(c, scope, lib))
  {
    var test := Evaluate(t, scope, lib);
    if test.Done? {
      TruthIsNotFalsy(test.value);
    }
  }

  /** Such as this. */
  lemma TrueTakesTheConsequent(scope: Scope, lib: Library)
    ensures Evaluate(Conditional(Lit(Bool(true)), Lit(Integer(1)), Lit(Integer(2))), scope, lib) == Done(V.Int(1), [])
  {
    FalsyTakesTheAlternate(Lit(Bool(true)), Lit(Integer(1)), Lit(Integer(2)), scope, lib);
  }

  /** `t ? c : a` is `((t && [c]) || [a])[0]`, in value, reports and failure. */
  lemma ConditionalIsLogical(t: Node, c: Node, a: Node, scope: Scope, lib: Library)
    ensures Evaluate(Conditional(t, c, a), scope, lib) ==
            Evaluate(Index(Infix("||", Infix("&&", t, Array([c])), Array([a])), Lit(Integer(0))), scope, lib)
  {
    var either := Infix("||", Infix("&&", t, Array([c])), Array([a]));
    var test := Evaluate(t, scope, lib);
    var chosen := Evaluate(if test.Done? && IsTruthy(test.value) then c else a, scope, lib);
    EitherIs(t, c, a, scope, lib);
    FirstOf(either, if test.Failed? then test else Noting(test.reports, chosen), scope, lib);
  }

  lemma EitherIs(t: Node, c: Node, a: Node, scope: Scope, lib: Library)
    ensures var test := Evaluate(t, scope, lib);
            var chosen := Evaluate(if test.Done? && IsTruthy(test.value) then c else a, scope, lib);
            Evaluate(Infix("||", Infix("&&", t, Array([c])), Array([a])), scope, lib) ==
            Listing(if test.Failed? then test else Noting(test.reports, chosen))
  {
    var both := Infix("&&", t, Array([c]));
    Singleton(c, scope, lib);
    Singleton(a, scope, lib);
    BothIs(t, c, scope, lib);
    LogicalIs("||", both, Array([a]), scope, lib);
  }

  lemma BothIs(t: Node, c: Node, scope: Scope, lib: Library)
    ensures var test := Evaluate(t, scope, lib);
            Evaluate(Infix("&&", t, Array([c])), scope, lib) ==
            if test.Done? && IsTruthy(test.value) then Noting(test.reports, Listing(Evaluate(c, scope, lib))) else test
  {
    Singleton(c, scope, lib);
    LogicalIs("&&", t, Array([c]), scope, lib);
  }

  lemma LogicalIs(op: string, l: Node, r: Node, scope: Scope, lib: Library)
    requires op in ["&&", "||"]
    ensures var left := Evaluate(l, scope, lib);
            Evaluate(Infix(op, l, r), scope, lib) ==
            if left.Done? && IsTruthy(left.value) == (op == "&&") then Noting(left.reports, Evaluate(r, scope, lib)) else left
  {
  }

  /** An evaluation's value, in a list of its own. */
  function Listing(o: Outcome): Outcome { if o.Failed? then o else Done(V.List([o.value]), o.reports) }

  lemma Singleton(n: Node, scope: Scope, lib: Library)
    ensures Evaluate(Array([n]), scope, lib) == Listing(Evaluate(n, scope, lib))
  {
    var o := Evaluate(n, scope, lib);
    assert [n][1..] == [];
    assert EvaluateAll([], scope, lib) == ([], [], false);
    assert o.reports + [] == o.reports;
    if o.Done? {
      assert [o.value] + [] == [o.value];
    }
    ArrayIs([n], Env(scope, lib));
  }

  lemma FirstOf(list: Node, o: Outcome, scope: Scope, lib: Library)
    requires !IsRead(list) && Evaluate(list, scope, lib) == Listing(o)
    ensures Evaluate(Index(list, Lit(Integer(0))), scope, lib) == o
  {
    var n := Index(list, Lit(Integer(0)));
    assert o.reports + [] == o.reports;
    assert Evaluate(Lit(Integer(0)), scope, lib) == Done(V.Int(0), []);
    if o.Done? {
      MembersAreThere([o.value], "", map[], 0, "", lib);
      assert ReadMember(n, scope, lib) == Read(o.value, true, o.reports);
    }
  }

  /** Negating a conjunction is the disjunction of the negations, the second
      operand evaluated for neither or for both. */
  lemma NegatesConjunction(l: Node, r: Node, scope: Scope, lib: Library)
    ensures Evaluate(Unary("!", Infix("&&", l, r)), scope, lib) ==
            Evaluate(Infix("||", Unary("!", l), Unary("!", r)), scope, lib)
  {
  }

  /** The word operators are the symbols. */
  lemma WordsAreSymbols(l: Node, r: Node, scope: Scope, lib: Library)
    ensures Evaluate(Infix("and", l, r), scope, lib) == Evaluate(Infix("&&", l, r), scope, lib)
    ensures Evaluate(Infix("or", l, r), scope, lib) == Evaluate(Infix("||", l, r), scope, lib)
  {
  }

  /** A chain of names, `uuid.v4` being one of two. */
  function NameChain(names: seq<string>): Node
    requires names != []
  {
    var n := |names| - 1;
    if n == 0 then Ident(names[0]) else Member(NameChain(names[..n]), names[n])
  }

  lemma {:induction false} JoinLast(names: seq<string>)
    requires |names| >= 2
    ensures var n := |names| - 1; Join(names, '.') == Join(names[..n], '.') + "." + names[n]
  {
    var n := |names| - 1;
    if n == 1 {
      assert names[..1] == [names[0]] && names[1..] == [names[1]];
    } else {
      JoinLast(names[1..]);
      assert names[1..][..n - 1] == names[..n][1..];
      var middle := Join(names[..n][1..], '.');
      assert names[0] + "." + (middle + "." + names[n]) == names[0] + "." + middle + "." + names[n];
    }
  }

  lemma {:induction false} ChainIsNamed(names: seq<string>)
    requires names != []
    ensures CalleeName(NameChain(names)) == Some(Join(names, '.'))
  {
    if |names| > 1 {
      ChainIsNamed(names[..|names| - 1]);
      JoinLast(names);
    }
  }

  lemma {:induction false} NamedIsChain(n: Node) returns (names: seq<string>)
    requires CalleeName(n).Some?
    ensures names != [] && n == NameChain(names)
  {
    if n.Ident? {
      names := [n.name];
    } else {
      var before := NamedIsChain(n.target);
      names := before + [n.name];
      assert names[..|names| - 1] == before;
    }
  }

  /** What is called by name is exactly a chain of names, and its name is theirs
      with dots between; anything else that is called fails. */
  lemma CalleesAreChains(n: Node, name: string)
    ensures CalleeName(n) == Some(name) <==> exists names :: names != [] && n == NameChain(names) && name == Join(names, '.')
  {
    if CalleeName(n).Some? {
      var names := NamedIsChain(n);
      ChainIsNamed(names);
    }
    forall names | names != [] && n == NameChain(names)
      ensures CalleeName(n) == Some(Join(names, '.'))
    {
      ChainIsNamed(names);
    }
  }

  lemma CallsByName(names: seq<string>, args: seq<Node>, scope: Scope, lib: Library)
    requires names != [] && Join(names, '.') in lib.builtins
    ensures var (values, reports, raised) := EvaluateAll(args, scope, lib);
            Evaluate(Call(NameChain(names), args), scope, lib) ==
            if raised then Failed(reports)
            else
              var result := lib.call(Join(names, '.'), values);
              if result.None? then Failed(reports) else Done(result.value, reports)
  {
    ChainIsNamed(names);
  }

  /** A truth value is the number 1 or 0, and null is 0, where an index is meant. */
  lemma NumbersOfOthers(items: seq<V.Value>, lib: Library)
    ensures MemberOf(V.List(items), V.Bool(true), lib) == if |items| > 1 then Some(items[1]) else None
    ensures MemberOf(V.List(items), V.Bool(false), lib) == if |items| > 0 then Some(items[0]) else None
    ensures MemberOf(V.List(items), V.Null, lib) == if |items| > 0 then Some(items[0]) else None
  {
  }

  /** What stands at an index or under a key is what is read there, and of a list
      or a text how long it is; nothing is read beyond. */
  lemma MembersAreThere(items: seq<V.Value>, text: string, fields: map<string, V.Value>, i: int, key: string, lib: Library)
    ensures MemberOf(V.List(items), V.Int(i), lib) == if 0 <= i < |items| then Some(items[i]) else None
    ensures MemberOf(V.Str(text), V.Int(i), lib) == if 0 <= i < |text| then Some(V.Str(text[i..i + 1])) else None
    ensures MemberOf(V.List(items), V.Str("length"), lib) == Some(V.Int(|items|))
    ensures MemberOf(V.Str(text), V.Str("length"), lib) == Some(V.Int(|text|))
    ensures MemberOf(V.Dict(fields), V.Str(key), lib) == if key in fields then Some(fields[key]) else None
  {
    assert (i as real).Floor == i;
    if 0 <= i < |text| {
      assert text[i..i + 1] == [text[i]];
    }
  }
}
