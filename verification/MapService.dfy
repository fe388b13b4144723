/** The Map service: its template, terms and properties, changed by configuring
    and by sensing, and what a pass makes of its input. */
module MapService {
  import opened Strings
  import opened OrderedDict
  import opened MapTrees
  import opened MapRebuild
  import opened Mapping

  class MapService {
    const eval: Evaluator
    var mode: Mode
    var single: bool
    var template: Tree
    var sensing: bool
    var terms: Fields
    var properties: Fields
    var structured: Option<Compiled>
    var mount: string

    function Now(): Config reads this { Config(mode, single, sensing, mount, template, terms, properties, structured) }

    constructor (eval: Evaluator)
      ensures this.eval == eval
      ensures Now() == Config(Replace, false, false, "", Obj([]), [], [], None)
    {
      this.eval := eval;
      mode, single, sensing, mount := Replace, false, false, "";
      template, terms, properties, structured := Obj([]), [], [], None;
    }

    method Process(input: Tree) returns (passed: Tree)
      modifies this
      ensures (Now(), passed) == Mapping.Process(old(Now()), input, eval)
    {
      if sensing {
        var flat := [Entry("value", input)];
        if IsContainer(input) {
          flat := Flatten(Children(input), "", []);
        }
        var sensed := [];
        for i := 0 to |flat|
          invariant Now() == old(Now())
          invariant SensedInto(sensed, flat[i..]) == SensedInto([], flat)
        {
          assert flat[i..][0] == flat[i] && flat[i..][1..] == flat[i + 1..];
          sensed := Put(sensed, Stripped(flat[i].key), flat[i].value);
        }
        UpdateTemplate(Obj(sensed));
        sensing := false;
        return Leaf(Null);
      }
      var perElement := !single && input.Arr?;
      if !perElement && structured.None? && terms == [] && properties == [] {
        return if mode.Replace? then Obj([]) else input;
      }
      var mapped: Option<Tree>;
      if perElement {
        mapped := MapElements(input.items);
      } else {
        mapped := Mapper(input);
      }
      passed := if mapped.Some? then Addressed(Now(), mapped.value) else Leaf(Null);
    }

    method MapElements(inputs: seq<Tree>) returns (mapped: Option<Tree>)
      ensures var each := MapEach(Now(), inputs, eval); mapped == if each.None? then None else Some(Arr(each.value))
    {
      var done := [];
      BeforeEnds(done, MapEach(Now(), inputs, eval));
      for i := 0 to |inputs|
        invariant MapEach(Now(), inputs, eval) == Before(done, MapEach(Now(), inputs[i..], eval))
      {
        assert inputs[i..][0] == inputs[i] && inputs[i..][1..] == inputs[i + 1..];
        var one := Mapper(inputs[i]);
        if one.None? {
          return None;
        }
        BeforeOne(done, one.value, MapEach(Now(), inputs[i + 1..], eval));
        done := done + [one.value];
      }
      BeforeEnds(done, None);
      mapped := Some(Arr(done));
    }

    /** A list found so far and the rest, if there is one. */
    static function Before<T>(done: seq<T>, rest: Option<seq<T>>): Option<seq<T>> {
      if rest.None? then None else Some(done + rest.value)
    }

    static lemma BeforeEnds<T>(done: seq<T>, rest: Option<seq<T>>)
      ensures Before([], rest) == rest && Before(done, Some([])) == Some(done)
    {
      assert done + [] == done;
      if rest.Some? {
        assert [] + rest.value == rest.value;
      }
    }

    static lemma BeforeOne<T>(done: seq<T>, one: T, rest: Option<seq<T>>)
      ensures Before(done, Before([one], rest)) == Before(done + [one], rest)
    {
      if rest.Some? {
        assert done + ([one] + rest.value) == done + [one] + rest.value;
      }
    }

    method Mapper(input: Tree) returns (mapped: Option<Tree>)
      ensures mapped == MapOne(Now(), input, eval)
    {
      if structured.Some? {
        mapped := EvaluateNode(structured.value, input, eval);
        if mapped.Some? && !IsLoneTerm(structured.value) && mapped.value.Obj? && input.Obj? {
          mapped := Some(Obj(Combined(Now(), mapped.value.fields, input)));
        }
        return;
      }
      if |terms| == 1 && terms[0].key == "" {
        return eval(terms[0].value, input);
      }
      var result := Combined(Now(), properties, input);
      for i := 0 to |terms|
        invariant EvaluateTerms(result, terms[i..], Now(), input, eval)
               == EvaluateTerms(Combined(Now(), properties, input), terms, Now(), input, eval)
      {
        assert terms[i..][0] == terms[i] && terms[i..][1..] == terms[i + 1..];
        var key, value := terms[i].key, eval(terms[i].value, input);
        if value.None? {
          return None;
        }
        if mode.Add? && '.' !in key && input.Obj? && Get(input.fields, key).Some? {
          result := Assign(result, key, Get(input.fields, key).value);
        } else {
          result := Assign(result, key, value.value);
        }
      }
      mapped := Some(Obj(result));
    }

    method UpdateTemplate(newTemplate: Tree)
      modifies this
      ensures Now() == Mapping.UpdateTemplate(old(Now()), newTemplate)
    {
      structured, terms, properties := None, [], [];
      if IsStructured(newTemplate) {
        template := newTemplate;
        structured := Some(Compile(newTemplate));
        return;
      }
      var flat := if newTemplate.Obj? then newTemplate.fields else [];
      var stored := Flatten(flat, "", []);
      template := Obj(stored);
      for i := 0 to |flat|
        invariant Now() == old(Now()).(template := Obj(stored), structured := None, terms := terms, properties := properties)
        invariant TermsOf(terms, flat[i..]) == TermsOf([], flat)
        invariant PropertiesOf(properties, flat[i..]) == PropertiesOf([], flat)
      {
        assert flat[i..][0] == flat[i] && flat[i..][1..] == flat[i + 1..];
        if IsDynamic(flat[i].key) {
          terms := Put(terms, Stem(flat[i].key), flat[i].value);
        } else {
          properties := Assign(properties, flat[i].key, flat[i].value);
        }
      }
    }

    /** `_flatten`, into the target it is given. */
    static method Flatten(fields: Fields, prefix: string, target: Fields) returns (flat: Fields)
      ensures flat == FlattenInto(fields, prefix, target)
      decreases FieldsSize(fields)
    {
      flat := target;
      for i := 0 to |fields|
        invariant FlattenInto(fields[i..], prefix, flat) == FlattenInto(fields, prefix, target)
        invariant FieldsSize(fields[i..]) <= FieldsSize(fields)
      {
        var e, rest := fields[i], fields[i..];
        assert rest[0] == e && rest[1..] == fields[i + 1..];
        var path := MapTrees.PathOf(prefix, e.key);
        if IsBranch(e.value) {
          flat := Flatten(Children(e.value), path, flat);
        } else {
          flat := Put(flat, path, e.value);
        }
      }
    }
  }
}
