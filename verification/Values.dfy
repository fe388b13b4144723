/** The values that flow between services. */
module Values {
  import opened Strings

  datatype Value =
    | Null
    | Bool(b: bool)
    | Int(n: int)
    | Real(x: real)
    | Str(s: string)
    | Bytes(bytes: seq<Byte>)
    | List(items: seq<Value>)
    | Dict(fields: map<string, Value>)

  /** A number that is whole, whichever way it is stored; a truth value is none. */
  function WholeNumber(v: Value): Option<int> {
    match v
    case Int(n) => Some(n)
    case Real(x) => if x == x.Floor as real then Some(x.Floor) else None
    case _ => None
  }

  /** Follows the names between the dots, and is Null from the first one on that
      is no key of a dictionary. */
  function ValueAt(v: Value, path: string): Value { ValueAlong(v, Split(path, '.')) }

  function ValueAlong(v: Value, steps: seq<string>): Value
    decreases |steps|
  {
    if steps == [] then v
    else if !v.Dict? then Null
    else ValueAlong(if steps[0] in v.fields then v.fields[steps[0]] else Null, steps[1..])
  }

  /** The names lead, one within another, from a value to another. */
  ghost predicate Reaches(v: Value, steps: seq<string>, x: Value)
    decreases |steps|
  {
    if steps == [] then v == x
    else v.Dict? && steps[0] in v.fields && Reaches(v.fields[steps[0]], steps[1..], x)
  }

  ghost predicate LeadsNowhere(v: Value, steps: seq<string>) { forall x :: !Reaches(v, steps, x) }

  lemma {:induction false} AlongReaches(v: Value, steps: seq<string>, x: Value)
    ensures Reaches(v, steps, x) ==> ValueAlong(v, steps) == x
    decreases |steps|
  {
    if steps != [] && v.Dict? && steps[0] in v.fields {
      AlongReaches(v.fields[steps[0]], steps[1..], x);
    }
  }

  lemma {:induction false} AlongNowhere(v: Value, steps: seq<string>)
    ensures !Reaches(v, steps, ValueAlong(v, steps)) ==> ValueAlong(v, steps) == Null
    decreases |steps|
  {
    if steps != [] && v.Dict? && steps[0] in v.fields {
      AlongNowhere(v.fields[steps[0]], steps[1..]);
    }
  }

  /** A dotted path comes to the value its names lead to, and to Null exactly
      where they lead to that or nowhere. */
  lemma ValueAtReaches(v: Value, steps: seq<string>, x: Value)
    requires steps != [] && forall i | 0 <= i < |steps| :: Free(steps[i], '.')
    ensures ValueAt(v, Join(steps, '.')) == x <==> Reaches(v, steps, x) || (x == Null && LeadsNowhere(v, steps))
  {
    SplitJoin(steps, '.');
    AlongReaches(v, steps, x);
    AlongNowhere(v, steps);
    if ValueAlong(v, steps) == x && !Reaches(v, steps, x) {
      forall y ensures !Reaches(v, steps, y) { AlongReaches(v, steps, y); }
    } else if LeadsNowhere(v, steps) {
      assert !Reaches(v, steps, ValueAlong(v, steps));
    }
  }
}
