/** Sensing: the template it makes of any input runs nothing, and of a plain tree
    is one that rebuilds the tree. */
module MapSensing {
  import opened Strings
  import opened OrderedDict
  import opened MapTrees
  import opened MapRebuild
  import opened Mapping

  // ── Nothing that runs ─────────────────────────────────────────────────────

  /** Whether a compiled template holds an expression anywhere. */
  predicate Runs(node: Compiled)
    decreases node
  {
    match node
    case Value(_) => false
    case Expression(_) => true
    case ArrayOf(items) => exists i :: 0 <= i < |items| && Runs(items[i])
    case ObjectOf(slots) => SlotsRun(slots)
  }

  predicate SlotsRun(slots: seq<Slot>)
    decreases slots
  {
    if slots == [] then false
    else
      var slot := slots[0];
      assert slot.child < slot;
      slot.dynamic || Runs(slot.child) || SlotsRun(slots[1..])
  }

  /** Keys that are no expressions, and values that hold nothing. */
  ghost predicate IsInert(flat: Fields) {
    forall i | 0 <= i < |flat| :: !IsDynamic(flat[i].key) && !IsBranch(flat[i].value)
  }

  ghost predicate AreLeaves(flat: Fields) { forall i | 0 <= i < |flat| :: !IsBranch(flat[i].value) }

  lemma {:induction false} FlattenGivesLeaves(fields: Fields, prefix: string, target: Fields)
    requires AreLeaves(target)
    ensures AreLeaves(FlattenInto(fields, prefix, target))
    decreases FieldsSize(fields)
  {
    if fields != [] {
      var e := fields[0];
      var path := MapTrees.PathOf(prefix, e.key);
      if IsBranch(e.value) {
        FlattenGivesLeaves(Children(e.value), path, target);
        FlattenGivesLeaves(fields[1..], prefix, FlattenInto(Children(e.value), path, target));
      } else {
        FlattenGivesLeaves(fields[1..], prefix, Put(target, path, e.value));
      }
    }
  }

  lemma {:induction false} SensedIsInert(target: Fields, flat: Fields)
    requires IsInert(target) && AreLeaves(flat)
    ensures IsInert(SensedInto(target, flat))
    decreases |flat|
  {
    if flat != [] {
      SensedIsInert(Put(target, Stripped(flat[0].key), flat[0].value), flat[1..]);
    }
  }

  lemma {:induction false} InertCompiles(flat: Fields)
    requires IsInert(flat)
    ensures !SlotsRun(CompileFields(flat))
    decreases flat
  {
    if flat != [] {
      var e, slots := flat[0], CompileFields(flat);
      InertCompiles(flat[1..]);
      assert slots[0] == Slot(e.key, false, Compile(e.value)) && slots[1..] == CompileFields(flat[1..]);
      assert !Runs(Compile(e.value));
    }
  }

  lemma {:induction false} InertHasNoTerms(terms: Fields, flat: Fields)
    requires IsInert(flat)
    ensures TermsOf(terms, flat) == terms
    decreases |flat|
  {
    if flat != [] {
      InertHasNoTerms(terms, flat[1..]);
    }
  }

  lemma SensedOfAny(input: Tree)
    ensures IsInert(Sensed(input).fields)
  {
    if IsContainer(input) {
      FlattenGivesLeaves(Children(input), "", []);
      SensedIsInert([], Flatten(input));
    } else {
      SensedIsInert([], [Entry("value", input)]);
    }
  }

  /** Whatever was sensed, whatever its keys are, the template holds no term and
      no expression. */
  lemma SensedRunsNothing(c: Config, input: Tree, eval: Evaluator)
    requires c.sensing
    ensures var after := Process(c, input, eval).0;
            after.terms == [] && (after.structured.Some? ==> !Runs(after.structured.value))
  {
    var flat := Sensed(input).fields;
    SensedOfAny(input);
    InertCompiles(flat);
    InertHasNoTerms([], flat);
  }

  // ── The next pass ─────────────────────────────────────────────────────────

  lemma LeafEvaluates(t: Tree, input: Tree, eval: Evaluator)
    requires !IsBranch(t)
    ensures EvaluateNode(Compile(t), input, eval) == Some(t)
  {
  }

  lemma {:induction false} SlotsAssign(result: Fields, flat: Fields, input: Tree, eval: Evaluator)
    requires IsInert(flat)
    ensures EvaluateSlots(result, CompileFields(flat), input, eval) == Some(AssignAll(result, flat))
    decreases |flat|
  {
    if flat != [] {
      var e := flat[0];
      var slots := CompileFields(flat);
      assert slots[0] == Slot(e.key, false, Compile(e.value)) && slots[1..] == CompileFields(flat[1..]);
      LeafEvaluates(e.value, input, eval);
      SlotsAssign(Assign(result, e.key, e.value), flat[1..], input, eval);
    }
  }

  lemma {:induction false} PropertiesAssign(properties: Fields, flat: Fields)
    requires IsInert(flat)
    ensures PropertiesOf(properties, flat) == AssignAll(properties, flat)
    decreases |flat|
  {
    if flat != [] {
      PropertiesAssign(Assign(properties, flat[0].key, flat[0].value), flat[1..]);
    }
  }

  /** An inert template makes the same of everything: its entries, assigned. */
  lemma InertMapsTo(c: Config, flat: Fields, input: Tree, eval: Evaluator)
    requires c.mode.Replace? && IsInert(flat)
    ensures var after := UpdateTemplate(c, Obj(flat));
            MapOne(after, input, eval) == Some(Obj(AssignAll([], flat)))
            && (after.structured.None? ==> after.terms == [] && after.properties == AssignAll([], flat))
  {
    var after := UpdateTemplate(c, Obj(flat));
    if IsStructured(Obj(flat)) {
      SlotsAssign([], flat, input, eval);
      if |flat| == 1 {
        assert CompileFields(flat)[0].dynamic == IsDynamic(flat[0].key);
      }
    } else {
      InertHasNoTerms([], flat);
      PropertiesAssign([], flat);
    }
  }

  function Copies(t: Tree, n: nat): (r: seq<Tree>)
    ensures |r| == n && forall i | 0 <= i < n :: r[i] == t
  {
    seq(n, i => t)
  }

  lemma {:induction false} EachIsACopy(c: Config, inputs: seq<Tree>, made: Tree, eval: Evaluator)
    requires forall i | 0 <= i < |inputs| :: MapOne(c, inputs[i], eval) == Some(made)
    ensures MapEach(c, inputs, eval) == Some(Copies(made, |inputs|))
  {
    if inputs != [] {
      EachIsACopy(c, inputs[1..], made, eval);
      assert [made] + Copies(made, |inputs| - 1) == Copies(made, |inputs|);
    }
  }

  /** The pass after an inert template was sensed. */
  lemma NextPass(c: Config, flat: Fields, input: Tree, eval: Evaluator)
    requires c.mode.Replace? && c.mount == "" && IsInert(flat)
    ensures var made := Obj(AssignAll([], flat));
            Mapped(UpdateTemplate(c, Obj(flat)).(sensing := false), input, eval) ==
            if IsPerElement(c, input) then Arr(Copies(made, |input.items|)) else made
  {
    var after := UpdateTemplate(c, Obj(flat)).(sensing := false);
    var made := Obj(AssignAll([], flat));
    InertMapsTo(c.(sensing := false), flat, input, eval);
    assert after == UpdateTemplate(c.(sensing := false), Obj(flat));
    if IsPerElement(c, input) {
      forall i | 0 <= i < |input.items|
        ensures MapOne(after, input.items[i], eval) == Some(made)
      {
        InertMapsTo(c.(sensing := false), flat, input.items[i], eval);
      }
      EachIsACopy(after, input.items, made, eval);
    }
  }

  // ── Sensing a plain tree ──────────────────────────────────────────────────

  lemma {:induction false} PathEnds(prefix: string, path: seq<string>)
    requires ArePath(path)
    ensures !IsDynamic(PathTo(prefix, path))
    decreases |path|
  {
    var first := MapTrees.PathOf(prefix, path[0]);
    assert first != "" && first[|first| - 1] == path[0][|path[0]| - 1];
    if |path| > 1 {
      PathEnds(first, path[1..]);
    } else {
      assert PathTo(prefix, path) == PathTo(first, path[1..]) == first;
    }
  }

  lemma {:induction false} NothingStripped(target: Fields, flat: Fields)
    requires forall i | 0 <= i < |flat| :: !IsDynamic(flat[i].key)
    ensures SensedInto(target, flat) == PutAll(target, flat)
    decreases |flat|
  {
    if flat != [] {
      NothingStripped(Put(target, flat[0].key, flat[0].value), flat[1..]);
    }
  }

  /** A plain tree is sensed as what it flattens to. */
  lemma SensedIsFlat(t: Tree)
    requires IsPlain(t) && IsContainer(t)
    ensures Sensed(t) == Obj(Flatten(t))
  {
    var leaves := Leaves(Children(t));
    var flat := Dotted("", leaves);
    PlainIsGood(t);
    FlattenIsLeaves(Children(t));
    LeavesAreApart(Children(t));
    forall i | 0 <= i < |flat|
      ensures !IsDynamic(flat[i].key)
    {
      PathEnds("", leaves[i].path);
    }
    NothingStripped([], flat);
    assert [] + flat == flat;
    PutAllAppends([], flat);
  }

  /** Sensing a plain tree passes nothing on; from then on everything that is no
      list is mapped to that tree, with objects for its lists, and a list to as
      many of them. */
  lemma SensingRebuilds(c: Config, t: Tree, input: Tree, eval: Evaluator)
    requires c.sensing && c.mode.Replace? && c.mount == "" && IsPlain(t) && IsContainer(t)
    ensures var (after, passed) := Process(c, t, eval);
            var rebuilt := Obj(ObjectsOf(Children(t)));
            && passed == Leaf(Null) && !after.sensing
            && Process(after, input, eval) ==
               (after, if IsPerElement(c, input) then Arr(Copies(rebuilt, |input.items|)) else rebuilt)
  {
    SensedIsFlat(t);
    SensedOfAny(t);
    NextPass(c, Flatten(t), input, eval);
    AssigningRebuilds(t);
  }

  /** What is rebuilt is the tree with objects for its lists, but for the empty
      list, which comes back as an empty object. */
  lemma AllButTheEmptyList(t: Tree)
    requires IsContainer(t)
    ensures Obj(ObjectsOf(Children(t))) == Objects(t) <==> t != Arr([])
  {
  }

  /** Anything else is sensed as an object that holds it. */
  lemma SensingAScalar(c: Config, t: Tree, input: Tree, eval: Evaluator)
    requires c.sensing && c.mode.Replace? && c.mount == "" && t.Leaf? && !IsPerElement(c, input)
    ensures var (after, passed) := Process(c, t, eval);
            passed == Leaf(Null) && Process(after, input, eval) == (after, Obj([Entry("value", t)]))
  {
    var flat := [Entry("value", t)];
    assert Stripped("value") == "value";
    assert flat[1..] == [] && Put([], "value", t) == flat;
    assert SensedInto([], flat) == SensedInto(flat, []) == flat;
    SensedOfAny(t);
    NextPass(c, flat, input, eval);
    assert Assign([], "value", t) == flat;
    assert AssignAll([], flat) == AssignAll(Assign([], "value", t), []);
  }

  /** Whether a tree holds no list that holds anything. */
  predicate IsListFree(t: Tree)
    decreases t
  {
    match t
    case Leaf(_) => true
    case Arr(items) => items == []
    case Obj(fields) => FieldsListFree(fields)
  }

  predicate FieldsListFree(fields: Fields)
    decreases fields
  {
    if fields == [] then true
    else
      var e := fields[0];
      assert e.value < e;
      IsListFree(e.value) && FieldsListFree(fields[1..])
  }

  /** A tree without lists that hold anything is rebuilt as it was, keys in order. */
  lemma {:induction false} ListFreeIsKept(t: Tree)
    requires IsListFree(t)
    ensures Objects(t) == t
    decreases t
  {
    if t.Obj? {
      ListFreeFieldsKept(t.fields);
    }
  }

  lemma {:induction false} ListFreeFieldsKept(fields: Fields)
    requires FieldsListFree(fields)
    ensures ObjectsOf(fields) == fields
    decreases fields
  {
    if fields != [] {
      var e := fields[0];
      assert e.value < e;
      ListFreeIsKept(e.value);
      ListFreeFieldsKept(fields[1..]);
      assert fields == [e] + fields[1..];
    }
  }
}
