/** What a Map makes of its template and of what passes through it, and that
    sensing a tree makes a template that rebuilds it and runs nothing. */
module Mapping {
  import opened Strings
  import opened OrderedDict
  import opened MapTrees
  import opened MapRebuild

  datatype Mode = Replace | Add | Overwrite

  datatype Compiled = Value(value: Tree) | Expression(source: Tree) | ArrayOf(items: seq<Compiled>) | ObjectOf(slots: seq<Slot>)

  /** A key of an object template, without its "=" where it had one. */
  datatype Slot = Slot(key: string, dynamic: bool, child: Compiled)

  datatype Config = Config(
    mode: Mode, single: bool, sensing: bool, mount: string,
    template: Tree, terms: Fields, properties: Fields, structured: Option<Compiled>)

  /** An expression's value for what passes through, None where it fails. */
  type Evaluator = (Tree, Tree) -> Option<Tree>

  const MOUNT_SCHEME := "hkp-mount://"

  // ── Templates ─────────────────────────────────────────────────────────────

  predicate IsDynamic(key: string) { key != "" && key[|key| - 1] == '=' }

  function Stem(key: string): string { if IsDynamic(key) then key[..|key| - 1] else key }

  function Compile(t: Tree): Compiled
    decreases t
  {
    match t
    case Leaf(_) => Value(t)
    case Arr(items) => ArrayOf(CompileItems(items))
    case Obj(fields) => ObjectOf(CompileFields(fields))
  }

  function CompileItems(items: seq<Tree>): seq<Compiled>
    decreases items
  {
    if items == [] then [] else [Compile(items[0])] + CompileItems(items[1..])
  }

  function CompileFields(fields: Fields): seq<Slot>
    decreases fields
  {
    if fields == [] then []
    else
      var e := fields[0];
      assert e.value < e;
      [Slot(Stem(e.key), IsDynamic(e.key), if IsDynamic(e.key) then Expression(e.value) else Compile(e.value))]
      + CompileFields(fields[1..])
  }

  predicate IsContainer(t: Tree) { t.Obj? || t.Arr? }

  predicate IsStructured(t: Tree) {
    t.Arr? || (t.Obj? && exists i :: 0 <= i < |t.fields| && IsContainer(t.fields[i].value))
  }

  /** The terms of a flat template, by their keys without the "=". */
  function TermsOf(terms: Fields, flat: Fields): Fields
    decreases |flat|
  {
    if flat == [] then terms
    else TermsOf(if IsDynamic(flat[0].key) then Put(terms, Stem(flat[0].key), flat[0].value) else terms, flat[1..])
  }

  function PropertiesOf(properties: Fields, flat: Fields): Fields
    decreases |flat|
  {
    if flat == [] then properties
    else PropertiesOf(if IsDynamic(flat[0].key) then properties else Assign(properties, flat[0].key, flat[0].value), flat[1..])
  }

  function UpdateTemplate(c: Config, template: Tree): Config {
    if IsStructured(template) then c.(template := template, structured := Some(Compile(template)), terms := [], properties := [])
    else
      var flat := if template.Obj? then template.fields else [];
      c.(template := Obj(FlattenInto(flat, "", [])), structured := None,
         terms := TermsOf([], flat), properties := PropertiesOf([], flat))
  }

  // ── Sensing ───────────────────────────────────────────────────────────────

  /** `rstrip("=")`. */
  function Stripped(key: string): (r: string)
    ensures !IsDynamic(r)
    decreases |key|
  {
    if IsDynamic(key) then Stripped(key[..|key| - 1]) else key
  }

  function SensedInto(target: Fields, flat: Fields): Fields
    decreases |flat|
  {
    if flat == [] then target else SensedInto(Put(target, Stripped(flat[0].key), flat[0].value), flat[1..])
  }

  function Sensed(input: Tree): Tree {
    Obj(SensedInto([], if IsContainer(input) then Flatten(input) else [Entry("value", input)]))
  }

  // ── Mapping ───────────────────────────────────────────────────────────────

  predicate IsLoneTerm(node: Compiled) {
    node.ObjectOf? && |node.slots| == 1 && node.slots[0].dynamic && node.slots[0].key == ""
  }

  function EvaluateNode(node: Compiled, params: Tree, eval: Evaluator): Option<Tree>
    decreases node
  {
    match node
    case Value(value) => Some(value)
    case Expression(source) => eval(source, params)
    case ArrayOf(items) =>
      var values := EvaluateItems(items, params, eval);
      if values.None? then None else Some(Arr(values.value))
    case ObjectOf(slots) =>
      if IsLoneTerm(node) then
        var slot := slots[0];
        assert slot.child < slot;
        EvaluateNode(slot.child, params, eval)
      else
        var fields := EvaluateSlots([], slots, params, eval);
        if fields.None? then None else Some(Obj(fields.value))
  }

  function EvaluateItems(items: seq<Compiled>, params: Tree, eval: Evaluator): Option<seq<Tree>>
    decreases items
  {
    if items == [] then Some([])
    else
      var first := EvaluateNode(items[0], params, eval);
      if first.None? then None
      else
        var rest := EvaluateItems(items[1..], params, eval);
        if rest.None? then None else Some([first.value] + rest.value)
  }

  function EvaluateSlots(result: Fields, slots: seq<Slot>, params: Tree, eval: Evaluator): Option<Fields>
    decreases slots
  {
    if slots == [] then Some(result)
    else
      var slot := slots[0];
      assert slot.child < slot;
      var value := EvaluateNode(slot.child, params, eval);
      if value.None? then None else EvaluateSlots(Assign(result, slot.key, value.value), slots[1..], params, eval)
  }

  /** The terms of a flat template, each assigned in turn; adding keeps what the
      input has under a key without dots. */
  function EvaluateTerms(result: Fields, terms: Fields, c: Config, input: Tree, eval: Evaluator): Option<Fields>
    decreases |terms|
  {
    if terms == [] then Some(result)
    else
      var key, value := terms[0].key, eval(terms[0].value, input);
      if value.None? then None
      else
        var kept := if c.mode.Add? && '.' !in key && input.Obj? then Get(input.fields, key) else None;
        EvaluateTerms(Assign(result, key, if kept.Some? then kept.value else value.value), terms[1..], c, input, eval)
  }

  /** `{**over, **under}`: the entries of one dictionary, then of the other. */
  function Combined(c: Config, own: Fields, input: Tree): Fields {
    var given := if input.Obj? then input.fields else [];
    match c.mode
    case Replace => own
    case Overwrite => PutAll(given, own)
    case Add => PutAll(own, given)
  }

  function MapOne(c: Config, input: Tree, eval: Evaluator): Option<Tree> {
    if c.structured.Some? then
      var mapped := EvaluateNode(c.structured.value, input, eval);
      if mapped.None? || IsLoneTerm(c.structured.value) || !mapped.value.Obj? || !input.Obj? then mapped
      else Some(Obj(Combined(c, mapped.value.fields, input)))
    else if |c.terms| == 1 && c.terms[0].key == "" then eval(c.terms[0].value, input)
    else
      var fields := EvaluateTerms(Combined(c, c.properties, input), c.terms, c, input, eval);
      if fields.None? then None else Some(Obj(fields.value))
  }

  function MapEach(c: Config, inputs: seq<Tree>, eval: Evaluator): Option<seq<Tree>> {
    if inputs == [] then Some([])
    else
      var first := MapOne(c, inputs[0], eval);
      if first.None? then None
      else
        var rest := MapEach(c, inputs[1..], eval);
        if rest.None? then None else Some([first.value] + rest.value)
  }

  predicate IsMountReference(s: string) { |MOUNT_SCHEME| <= |s| && s[..|MOUNT_SCHEME|] == MOUNT_SCHEME }

  /** The result with the address of the mount for each reference to one. */
  function Addressed(c: Config, t: Tree): Tree {
    if c.mount == "" || IsMountReference(c.mount) then t else WithAddress(t, c.mount)
  }

  function WithAddress(t: Tree, mount: string): Tree
    decreases t
  {
    match t
    case Leaf(Text(s)) => if IsMountReference(s) then Leaf(Text(mount)) else t
    case Leaf(_) => t
    case Arr(items) => Arr(AddressItems(items, mount))
    case Obj(fields) => Obj(AddressFields(fields, mount))
  }

  function AddressItems(items: seq<Tree>, mount: string): seq<Tree>
    decreases items
  {
    if items == [] then [] else [WithAddress(items[0], mount)] + AddressItems(items[1..], mount)
  }

  function AddressFields(fields: Fields, mount: string): Fields
    decreases fields
  {
    if fields == [] then []
    else
      var e := fields[0];
      assert e.value < e;
      [Entry(e.key, WithAddress(e.value, mount))] + AddressFields(fields[1..], mount)
  }

  predicate IsPerElement(c: Config, input: Tree) { !c.single && input.Arr? }

  /** A pass that does not sense. Null stands for passing nothing on. */
  function Mapped(c: Config, input: Tree, eval: Evaluator): Tree {
    if !IsPerElement(c, input) && c.structured.None? && c.terms == [] && c.properties == [] then
      if c.mode.Replace? then Obj([]) else input
    else if IsPerElement(c, input) then
      var each := MapEach(c, input.items, eval);
      if each.None? then Leaf(Null) else Addressed(c, Arr(each.value))
    else
      var one := MapOne(c, input, eval);
      if one.None? then Leaf(Null) else Addressed(c, one.value)
  }

  function Process(c: Config, input: Tree, eval: Evaluator): (Config, Tree) {
    if c.sensing then (UpdateTemplate(c, Sensed(input)).(sensing := false), Leaf(Null))
    else (c, Mapped(c, input, eval))
  }
}
