/** JSON-like trees, flattened to dotted keys and rebuilt by merging each value
    in at its path. Dictionaries keep their order. */
module MapTrees {
  import opened Strings
  import opened OrderedDict

  datatype Scalar = Null | Bool(b: bool) | Number(n: int) | Text(s: string)

  datatype Tree = Leaf(scalar: Scalar) | Obj(fields: Dict<string, Tree>) | Arr(items: seq<Tree>)

  type Fields = Dict<string, Tree>

  // ── Flattening ────────────────────────────────────────────────────────────

  function Size(t: Tree): (n: nat)
    ensures n >= 1
    decreases t
  {
    match t
    case Leaf(_) => 1
    case Obj(fields) => 1 + FieldsSize(fields)
    case Arr(items) => 1 + ItemsSize(items)
  }

  function FieldsSize(fields: Fields): nat
    decreases fields
  {
    if fields == [] then 0
    else
      var first := fields[0];
      assert first.value < first;
      Size(first.value) + FieldsSize(fields[1..])
  }

  function ItemsSize(items: seq<Tree>): nat
    decreases items
  {
    if items == [] then 0 else Size(items[0]) + ItemsSize(items[1..])
  }

  function Indexed(items: seq<Tree>, from: nat): (fields: Fields)
    ensures |fields| == |items|
    ensures forall i | 0 <= i < |items| :: fields[i] == Entry(Digits(from + i), items[i])
    ensures FieldsSize(fields) == ItemsSize(items)
    decreases items
  {
    if items == [] then [] else
      var rest := Indexed(items[1..], from + 1);
      assert ([Entry(Digits(from), items[0])] + rest)[1..] == rest;
      [Entry(Digits(from), items[0])] + rest
  }

  /** What a container holds, a list's items under their indices. */
  function Children(t: Tree): (fields: Fields)
    ensures FieldsSize(fields) < Size(t)
  {
    match t
    case Leaf(_) => []
    case Obj(fields) => fields
    case Arr(items) => Indexed(items, 0)
  }

  predicate IsBranch(t: Tree) { (t.Obj? && t.fields != []) || (t.Arr? && t.items != []) }

  function PathOf(prefix: string, key: string): string {
    if prefix != "" then prefix + "." + key else key
  }

  /** `_flatten` into a dictionary that may hold something already. */
  function FlattenInto(fields: Fields, prefix: string, target: Fields): Fields
    decreases FieldsSize(fields)
  {
    if fields == [] then target
    else
      var e := fields[0];
      var path := PathOf(prefix, e.key);
      var next := if IsBranch(e.value) then FlattenInto(Children(e.value), path, target) else Put(target, path, e.value);
      FlattenInto(fields[1..], prefix, next)
  }

  function Flatten(t: Tree): Fields { FlattenInto(Children(t), "", []) }

  // ── Merging ───────────────────────────────────────────────────────────────

  /** What is under a key, where that is an object; else an empty one. */
  function Branch(fields: Fields, key: string): Fields {
    var held := Get(fields, key);
    if held.Some? && held.value.Obj? then held.value.fields else []
  }

  function Merge(fields: Fields, value: Tree, segments: seq<string>): Fields
    requires segments != []
    decreases |segments|
  {
    if |segments| == 1 then Put(fields, segments[0], value)
    else Put(fields, segments[0], Obj(Merge(Branch(fields, segments[0]), value, segments[1..])))
  }

  /** A value under a dotted key. */
  function Assign(fields: Fields, key: string, value: Tree): Fields {
    if '.' in key then Merge(fields, value, Split(key, '.')) else Put(fields, key, value)
  }

  function AssignAll(fields: Fields, flat: Fields): Fields
    decreases |flat|
  {
    if flat == [] then fields else AssignAll(Assign(fields, flat[0].key, flat[0].value), flat[1..])
  }

  // ── Leaves by path ────────────────────────────────────────────────────────

  /** A leaf, or an empty container, and the keys that lead to it. */
  datatype Placed = Placed(path: seq<string>, value: Tree)

  function Under(key: string, leaves: seq<Placed>): (r: seq<Placed>)
    ensures |r| == |leaves|
    ensures forall i | 0 <= i < |leaves| :: r[i] == Placed([key] + leaves[i].path, leaves[i].value)
  {
    if leaves == [] then [] else [Placed([key] + leaves[0].path, leaves[0].value)] + Under(key, leaves[1..])
  }

  function Leaves(fields: Fields): (r: seq<Placed>)
    ensures forall i | 0 <= i < |r| :: r[i].path != [] && !IsBranch(r[i].value)
    ensures fields != [] ==> r != []
    decreases FieldsSize(fields)
  {
    if fields == [] then []
    else
      var e := fields[0];
      (if IsBranch(e.value) then Under(e.key, Leaves(Children(e.value))) else [Placed([e.key], e.value)])
      + Leaves(fields[1..])
  }

  function MergeAll(fields: Fields, leaves: seq<Placed>): Fields
    requires forall i | 0 <= i < |leaves| :: leaves[i].path != []
    decreases |leaves|
  {
    if leaves == [] then fields
    else MergeAll(Merge(fields, leaves[0].value, leaves[0].path), leaves[1..])
  }

  /** A tree with each list that holds something turned into an object keyed by
      index. */
  function Objects(t: Tree): Tree
    decreases Size(t), 0
  {
    if IsBranch(t) then Obj(ObjectsOf(Children(t))) else t
  }

  function ObjectsOf(fields: Fields): (r: Fields)
    ensures |r| == |fields|
    ensures forall i | 0 <= i < |fields| :: r[i].key == fields[i].key
    decreases FieldsSize(fields), 1
  {
    if fields == [] then []
    else [Entry(fields[0].key, Objects(fields[0].value))] + ObjectsOf(fields[1..])
  }
}
