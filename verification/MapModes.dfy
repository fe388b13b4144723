/** What a Map's mode does, key by key: whose value stands under a key when a
    template meets an object, and where the keys stand. */
module MapModes {
  import opened Strings
  import opened OrderedDict
  import opened MapTrees
  import opened MapRebuild
  import opened Mapping

  // ── Keys ──────────────────────────────────────────────────────────────────

  /** The first name of a dotted key; all of one without dots. */
  function Head(key: string): string { if '.' in key then Split(key, '.')[0] else key }

  /** No dotted key leads through `k`. */
  ghost predicate Apart(flat: Fields, k: string) {
    forall i | 0 <= i < |flat| :: '.' in flat[i].key ==> Head(flat[i].key) != k
  }

  function Inserted(keys: seq<string>, key: string): seq<string> { if key in keys then keys else keys + [key] }

  /** The second list's keys behind the first's, those left out that are there. */
  function InsertedAll(keys: seq<string>, more: seq<string>): seq<string>
    decreases |more|
  {
    if more == [] then keys else InsertedAll(Inserted(keys, more[0]), more[1..])
  }

  function KeysOf(fields: Fields): (keys: seq<string>)
    ensures |keys| == |fields| && forall i | 0 <= i < |fields| :: keys[i] == fields[i].key
  {
    seq(|fields|, i requires 0 <= i < |fields| => fields[i].key)
  }

  lemma HasKey(fields: Fields, k: string)
    ensures Has(fields, k) <==> k in KeysOf(fields)
  {
    HasAt(fields, k);
    if k in KeysOf(fields) {
      var i :| 0 <= i < |fields| && KeysOf(fields)[i] == k;
    }
  }

  lemma PutKeys(fields: Fields, key: string, value: Tree)
    ensures KeysOf(Put(fields, key, value)) == Inserted(KeysOf(fields), key)
  {
    HasKey(fields, key);
  }

  /** What an assignment puts under the first name of its key. */
  function Held(fields: Fields, key: string, value: Tree): Tree {
    if |Split(key, '.')| < 2 then value
    else Obj(Merge(Branch(fields, Split(key, '.')[0]), value, Split(key, '.')[1..]))
  }

  lemma AssignIs(fields: Fields, key: string, value: Tree)
    ensures '.' !in key ==> Assign(fields, key, value) == Put(fields, Head(key), value)
    ensures '.' in key ==> Assign(fields, key, value) == Put(fields, Head(key), Held(fields, key, value))
  {
    if '.' in key {
      SplitOfDotted(key);
    }
  }

  lemma {:induction false} SplitOfDotted(key: string)
    requires '.' in key
    ensures |Split(key, '.')| >= 2
  {
    if key[0] != '.' {
      assert key == [key[0]] + key[1..];
      SplitOfDotted(key[1..]);
    }
  }

  /** A value assigned under one key is found there, and under no key that it is
      not and does not lead through. */
  lemma AssignGet(fields: Fields, key: string, value: Tree, k: string)
    requires Unique(fields) && '.' !in k && ('.' in key ==> Head(key) != k)
    ensures Unique(Assign(fields, key, value))
    ensures Get(Assign(fields, key, value), k) == if key == k then Some(value) else Get(fields, k)
    ensures KeysOf(Assign(fields, key, value)) == Inserted(KeysOf(fields), Head(key))
  {
    AssignIs(fields, key, value);
    var held := if '.' in key then Held(fields, key, value) else value;
    GetPut(fields, Head(key), held, k);
    PutKeys(fields, Head(key), held);
  }

  lemma {:induction false} PutAllGet(target: Fields, flat: Fields, k: string)
    requires Unique(target) && Unique(flat)
    ensures Unique(PutAll(target, flat))
    ensures Get(PutAll(target, flat), k) == if Has(flat, k) then Get(flat, k) else Get(target, k)
    ensures KeysOf(PutAll(target, flat)) == InsertedAll(KeysOf(target), KeysOf(flat))
    decreases |flat|
  {
    if flat != [] {
      var e := flat[0];
      GetPut(target, e.key, e.value, k);
      PutKeys(target, e.key, e.value);
      PutAllGet(Put(target, e.key, e.value), flat[1..], k);
      FirstGet(flat, k);
      assert KeysOf(flat)[1..] == KeysOf(flat[1..]);
    }
  }

  lemma FirstGet(flat: Fields, k: string)
    requires flat != [] && Unique(flat)
    ensures Unique(flat[1..]) && (flat[0].key == k ==> !Has(flat[1..], k))
    ensures Get(flat, k) == if flat[0].key == k then Some(flat[0].value) else Get(flat[1..], k)
  {
    HasAt(flat[1..], k);
    assert flat == [flat[0]] + flat[1..];
    GetCons(flat[0], flat[1..], k);
    assert forall i | 0 <= i < |flat| - 1 :: flat[1..][i] == flat[i + 1];
  }

  // ── What a template makes ─────────────────────────────────────────────────

  /** Under a key a flat template makes what it holds under that key with a "="
      behind it, evaluated, or else what it holds under the key itself. */
  function Makes(flat: Fields, k: string, input: Tree, eval: Evaluator): Option<Tree> {
    var term := Get(flat, k + "=");
    if term.Some? then eval(term.value, input)
    else if IsDynamic(k) then None
    else Get(flat, k)
  }

  /** The keys without "=", and those with it, by first names. */
  function StaticHeads(flat: Fields): seq<string> {
    if flat == [] then []
    else (if IsDynamic(flat[0].key) then [] else [Head(flat[0].key)]) + StaticHeads(flat[1..])
  }

  function TermKeys(flat: Fields): seq<string> {
    if flat == [] then [] else (if IsDynamic(flat[0].key) then [Stem(flat[0].key)] else []) + TermKeys(flat[1..])
  }

  function Heads(keys: seq<string>): seq<string> {
    if keys == [] then [] else [Head(keys[0])] + Heads(keys[1..])
  }

  lemma StemIs(key: string, k: string)
    ensures IsDynamic(key) && Stem(key) == k <==> key == k + "="
  {
    if key == k + "=" {
      assert key[..|key| - 1] == k;
    }
    if IsDynamic(key) && Stem(key) == k {
      assert key == key[..|key| - 1] + [key[|key| - 1]];
    }
  }

  lemma {:induction false} TermsGet(terms: Fields, flat: Fields, k: string)
    requires Unique(terms) && Unique(flat)
    ensures Unique(TermsOf(terms, flat))
    ensures Get(TermsOf(terms, flat), k) == if Has(flat, k + "=") then Get(flat, k + "=") else Get(terms, k)
    ensures KeysOf(TermsOf(terms, flat)) == InsertedAll(KeysOf(terms), TermKeys(flat))
    decreases |flat|
  {
    if flat != [] {
      var e := flat[0];
      var next := if IsDynamic(e.key) then Put(terms, Stem(e.key), e.value) else terms;
      if IsDynamic(e.key) {
        GetPut(terms, Stem(e.key), e.value, k);
        PutKeys(terms, Stem(e.key), e.value);
        assert ([Stem(e.key)] + TermKeys(flat[1..]))[1..] == TermKeys(flat[1..]);
      } else {
        assert [] + TermKeys(flat[1..]) == TermKeys(flat[1..]);
      }
      StemIs(e.key, k);
      FirstGet(flat, k + "=");
      TermsGet(next, flat[1..], k);
    }
  }

  lemma {:induction false} PropertiesGet(properties: Fields, flat: Fields, k: string)
    requires Unique(properties) && Unique(flat) && '.' !in k && Apart(flat, k)
    ensures Unique(PropertiesOf(properties, flat))
    ensures Get(PropertiesOf(properties, flat), k) == if !IsDynamic(k) && Has(flat, k) then Get(flat, k) else Get(properties, k)
    ensures KeysOf(PropertiesOf(properties, flat)) == InsertedAll(KeysOf(properties), StaticHeads(flat))
    decreases |flat|
  {
    if flat != [] {
      var e := flat[0];
      var next := if IsDynamic(e.key) then properties else Assign(properties, e.key, e.value);
      if !IsDynamic(e.key) {
        AssignGet(properties, e.key, e.value, k);
        assert ([Head(e.key)] + StaticHeads(flat[1..]))[1..] == StaticHeads(flat[1..]);
      } else {
        assert [] + StaticHeads(flat[1..]) == StaticHeads(flat[1..]);
      }
      FirstGet(flat, k);
      assert forall i | 0 <= i < |flat| - 1 :: flat[1..][i] == flat[i + 1];
      PropertiesGet(next, flat[1..], k);
    }
  }

  /** What an input holds under a key; nothing where it is no object. */
  function Given(input: Tree, k: string): Option<Tree> { if input.Obj? then Get(input.fields, k) else None }

  function Inputs(input: Tree): Fields { if input.Obj? then input.fields else [] }

  lemma {:induction false} TermsMake(result: Fields, terms: Fields, c: Config, input: Tree, eval: Evaluator, k: string)
    requires Unique(result) && Unique(terms) && '.' !in k && Apart(terms, k) && EvaluateTerms(result, terms, c, input, eval).Some?
    ensures var out := EvaluateTerms(result, terms, c, input, eval).value;
            && Unique(out) && KeysOf(out) == InsertedAll(KeysOf(result), Heads(KeysOf(terms)))
            && (Has(terms, k) ==> eval(Get(terms, k).value, input).Some?)
            && Get(out, k) ==
               if !Has(terms, k) then Get(result, k)
               else if c.mode.Add? && Given(input, k).Some? then Given(input, k)
               else eval(Get(terms, k).value, input)
    decreases |terms|
  {
    if terms != [] {
      var key, value := terms[0].key, eval(terms[0].value, input);
      var kept := if c.mode.Add? && '.' !in key && input.Obj? then Get(input.fields, key) else None;
      var made := if kept.Some? then kept.value else value.value;
      AssignGet(result, key, made, k);
      FirstGet(terms, k);
      assert forall i | 0 <= i < |terms| - 1 :: terms[1..][i] == terms[i + 1];
      TermsMake(Assign(result, key, made), terms[1..], c, input, eval, k);
      assert KeysOf(terms)[1..] == KeysOf(terms[1..]);
      assert ([Head(key)] + Heads(KeysOf(terms[1..])))[1..] == Heads(KeysOf(terms[1..]));
    }
  }

  lemma CombinedGet(c: Config, own: Fields, input: Tree, k: string)
    requires Unique(own) && Unique(Inputs(input))
    ensures Unique(Combined(c, own, input))
    ensures var mine, given := Get(own, k), Given(input, k);
            Get(Combined(c, own, input), k) ==
            match c.mode
            case Replace => mine
            case Overwrite => (if mine.Some? then mine else given)
            case Add => if given.Some? then given else mine
    ensures var mine, given := KeysOf(own), KeysOf(Inputs(input));
            KeysOf(Combined(c, own, input)) ==
            match c.mode
            case Replace => mine
            case Overwrite => InsertedAll(given, mine)
            case Add => InsertedAll(mine, given)
  {
    PutAllGet(Inputs(input), own, k);
    PutAllGet(own, Inputs(input), k);
  }

  // ── The modes ─────────────────────────────────────────────────────────────

  /** Whose value it is: in overwrite mode the template's before the input's, in
      add mode the input's before the template's, in replace mode the template's. */
  function Chosen(mode: Mode, made: Option<Tree>, given: Option<Tree>): Option<Tree> {
    match mode
    case Replace => made
    case Overwrite => if made.Some? then made else given
    case Add => if given.Some? then given else made
  }

  /** A template whose only term is under "=" makes no object. */
  ghost predicate IsLone(flat: Fields) {
    Has(flat, "=") && forall i | 0 <= i < |flat| :: IsDynamic(flat[i].key) ==> flat[i].key == "="
  }

  lemma {:induction false} HeadOfTerm(key: string)
    requires '.' in key
    ensures '.' in key + "=" && Head(key + "=") == Head(key)
  {
    assert (key + "=")[1..] == key[1..] + "=";
    if key[0] != '.' {
      assert key == [key[0]] + key[1..];
      HeadOfTerm(key[1..]);
    } else {
      assert (key + "=")[0] == '.';
    }
  }

  lemma TermsApart(flat: Fields, k: string)
    requires Unique(flat) && Apart(flat, k)
    ensures Apart(TermsOf([], flat), k)
  {
    var terms := TermsOf([], flat);
    forall j | 0 <= j < |terms| && '.' in terms[j].key
      ensures Head(terms[j].key) != k
    {
      var q := terms[j].key;
      TermsGet([], flat, q);
      HasAt(terms, q);
      HasAt(flat, q + "=");
      var i :| 0 <= i < |flat| && flat[i].key == q + "=";
      HeadOfTerm(q);
    }
  }

  lemma TermHas(flat: Fields, q: string)
    requires Unique(flat)
    ensures Unique(TermsOf([], flat)) && (Has(TermsOf([], flat), q) <==> Has(flat, q + "="))
  {
    TermsGet([], flat, q);
  }

  lemma LoneOnly(flat: Fields)
    requires Unique(flat) && |TermsOf([], flat)| == 1 && TermsOf([], flat)[0].key == ""
    ensures IsLone(flat)
  {
    var terms := TermsOf([], flat);
    HasAt(terms, "");
    TermHas(flat, "");
    assert "" + "=" == "=";
    forall i | 0 <= i < |flat| && IsDynamic(flat[i].key)
      ensures flat[i].key == "="
    {
      var q := Stem(flat[i].key);
      StemIs(flat[i].key, q);
      HasAt(flat, q + "=");
      TermHas(flat, q);
      HasAt(terms, q);
      assert q == "";
    }
  }

  /** Key by key, a flat template with any input: the value under a key without
      dots through which none of the template's dotted keys leads; and the order
      of all keys, those in front that the mode starts from. */
  lemma FlatTemplate(c: Config, flat: Fields, input: Tree, eval: Evaluator, k: string)
    requires Unique(flat) && Unique(Inputs(input)) && !IsStructured(Obj(flat)) && !IsLone(flat)
    requires '.' !in k && Apart(flat, k)
    requires MapOne(UpdateTemplate(c, Obj(flat)), input, eval).Some?
    ensures var out := MapOne(UpdateTemplate(c, Obj(flat)), input, eval).value;
            && out.Obj?
            && Get(out.fields, k) == Chosen(c.mode, Makes(flat, k, input, eval), Given(input, k))
            && var fixed, given := InsertedAll([], StaticHeads(flat)), KeysOf(Inputs(input));
               KeysOf(out.fields) ==
               InsertedAll(match c.mode
                           case Replace => fixed
                           case Overwrite => InsertedAll(given, fixed)
                           case Add => InsertedAll(fixed, given),
                           Heads(InsertedAll([], TermKeys(flat))))
  {
    var after := UpdateTemplate(c, Obj(flat));
    TermsGet([], flat, k);
    TermsApart(flat, k);
    PropertiesGet([], flat, k);
    CombinedGet(after, after.properties, input, k);
    if |after.terms| == 1 && after.terms[0].key == "" {
      LoneOnly(flat);
    }
    TermsMake(Combined(after, after.properties, input), after.terms, after, input, eval, k);
  }

  /** The same of a whole pass, an empty template included, where no mount is to
      be named. */
  lemma FlatPass(c: Config, flat: Fields, input: Tree, eval: Evaluator, k: string)
    requires Unique(flat) && input.Obj? && Unique(input.fields) && !IsStructured(Obj(flat)) && !IsLone(flat)
    requires '.' !in k && Apart(flat, k) && !c.sensing && c.mount == ""
    requires MapOne(UpdateTemplate(c, Obj(flat)), input, eval).Some?
    ensures var (after, out) := Process(UpdateTemplate(c, Obj(flat)), input, eval);
            && after == UpdateTemplate(c, Obj(flat)) && out.Obj?
            && Get(out.fields, k) == Chosen(c.mode, Makes(flat, k, input, eval), Given(input, k))
  {
    FlatTemplate(c, flat, input, eval, k);
    TermsGet([], flat, k);
    PropertiesGet([], flat, k);
  }

  // ── Structured templates ──────────────────────────────────────────────────

  /** The last entry that is for a key, with "=" behind it or without. */
  function LastFor(fields: Fields, k: string): Option<Entry<string, Tree>> {
    if fields == [] then None
    else
      var rest := LastFor(fields[1..], k);
      if rest.Some? then rest else if Stem(fields[0].key) == k then Some(fields[0]) else None
  }

  /** What it makes: the value of its expression, or of the template in it. */
  function MakesOf(e: Entry<string, Tree>, input: Tree, eval: Evaluator): Option<Tree> {
    if IsDynamic(e.key) then eval(e.value, input) else EvaluateNode(Compile(e.value), input, eval)
  }

  function Stems(fields: Fields): seq<string> {
    if fields == [] then [] else [Head(Stem(fields[0].key))] + Stems(fields[1..])
  }

  ghost predicate StemsApart(fields: Fields, k: string) {
    forall i | 0 <= i < |fields| :: '.' in Stem(fields[i].key) ==> Head(Stem(fields[i].key)) != k
  }

  lemma {:induction false} SlotsMake(result: Fields, fields: Fields, input: Tree, eval: Evaluator, k: string)
    requires Unique(result) && '.' !in k && StemsApart(fields, k)
    requires EvaluateSlots(result, CompileFields(fields), input, eval).Some?
    ensures var out := EvaluateSlots(result, CompileFields(fields), input, eval).value;
            var last := LastFor(fields, k);
            && Unique(out) && KeysOf(out) == InsertedAll(KeysOf(result), Stems(fields))
            && (last.Some? ==> MakesOf(last.value, input, eval).Some?)
            && Get(out, k) == if last.Some? then MakesOf(last.value, input, eval) else Get(result, k)
    decreases |fields|
  {
    if fields != [] {
      var e, slots := fields[0], CompileFields(fields);
      assert slots[1..] == CompileFields(fields[1..]);
      var value := MakesOf(e, input, eval);
      assert EvaluateNode(slots[0].child, input, eval) == value;
      AssignGet(result, Stem(e.key), value.value, k);
      assert forall i | 0 <= i < |fields| - 1 :: fields[1..][i] == fields[i + 1];
      SlotsMake(Assign(result, Stem(e.key), value.value), fields[1..], input, eval, k);
      assert ([Head(Stem(e.key))] + Stems(fields[1..]))[1..] == Stems(fields[1..]);
    }
  }

  /** A template is structured exactly if it is a list, or an object with a list
      or an object directly in it; then it is kept as it was authored. */
  lemma KeptAsAuthored(c: Config, template: Tree)
    ensures var after := UpdateTemplate(c, template);
            && (after.structured.Some? <==>
                  template.Arr? || (template.Obj? && exists e :: e in template.fields && (e.value.Obj? || e.value.Arr?)))
            && (after.structured.Some? ==> after.template == template && after.terms == [] && after.properties == [])
  {
  }

  /** A list in a template makes the list of what its items make, and fails
      exactly if one of them does. */
  lemma {:induction false} ListsMakeLists(items: seq<Tree>, input: Tree, eval: Evaluator)
    ensures var made := EvaluateNode(Compile(Arr(items)), input, eval);
            && (made.Some? <==> forall i | 0 <= i < |items| :: EvaluateNode(Compile(items[i]), input, eval).Some?)
            && (made.Some? ==>
                  && made.value.Arr? && |made.value.items| == |items|
                  && forall i | 0 <= i < |items| :: EvaluateNode(Compile(items[i]), input, eval) == Some(made.value.items[i]))
  {
    ItemsMake(items, input, eval);
    assert EvaluateNode(ArrayOf(CompileItems(items)), input, eval) ==
           var values := EvaluateItems(CompileItems(items), input, eval);
           if values.None? then None else Some(Arr(values.value));
  }

  lemma {:induction false} ItemsMake(items: seq<Tree>, input: Tree, eval: Evaluator)
    ensures var made := EvaluateItems(CompileItems(items), input, eval);
            && (made.Some? <==> forall i | 0 <= i < |items| :: EvaluateNode(Compile(items[i]), input, eval).Some?)
            && (made.Some? ==>
                  && |made.value| == |items|
                  && forall i | 0 <= i < |items| :: EvaluateNode(Compile(items[i]), input, eval) == Some(made.value[i]))
  {
    if items != [] {
      ItemsMake(items[1..], input, eval);
      assert CompileItems(items)[1..] == CompileItems(items[1..]) && CompileItems(items)[0] == Compile(items[0]);
      assert forall i | 0 < i < |items| :: items[i] == items[1..][i - 1];
    }
  }

  /** An object of a lone "=" stands for the value of its term, wherever in a
      template it is. */
  lemma LoneTermStandsForItsValue(c: Config, term: Tree, input: Tree, eval: Evaluator)
    ensures var lone := Obj([Entry("=", term)]);
            && EvaluateNode(Compile(lone), input, eval) == eval(term, input)
            && (IsStructured(lone) ==> MapOne(UpdateTemplate(c, lone), input, eval) == eval(term, input))
  {
    var fields := [Entry("=", term)];
    assert fields[1..] == [] && Stem("=") == "" && IsDynamic("=");
    assert CompileFields(fields) == [Slot("", true, Expression(term))];
  }

  /** And so does a flat template whose only term that is. */
  lemma LoneTermOfMany(c: Config, flat: Fields, input: Tree, eval: Evaluator)
    requires Unique(flat) && IsLone(flat) && !IsStructured(Obj(flat))
    ensures MapOne(UpdateTemplate(c, Obj(flat)), input, eval) == eval(Get(flat, "=").value, input)
  {
    LoneTerms(flat);
    TermsGet([], flat, "");
    assert "" + "=" == "=";
    assert Find(TermsOf([], flat), "") == 0;
  }

  lemma LoneTerms(flat: Fields)
    requires Unique(flat) && IsLone(flat)
    ensures |TermsOf([], flat)| == 1 && TermsOf([], flat)[0].key == ""
  {
    var terms := TermsOf([], flat);
    TermHas(flat, "");
    assert "" + "=" == "=";
    forall j | 0 <= j < |terms|
      ensures terms[j].key == ""
    {
      var q := terms[j].key;
      HasAt(terms, q);
      TermHas(flat, q);
      HasAt(flat, q + "=");
      var i :| 0 <= i < |flat| && flat[i].key == q + "=";
      assert IsDynamic(flat[i].key);
    }
    HasAt(terms, "");
    FindHere(terms, 0);
    FindHere(terms, |terms| - 1);
  }

  /** Key by key, a structured template that is an object of more than a lone
      "=", with an object for input. */
  lemma StructuredTemplate(c: Config, fields: Fields, input: Tree, eval: Evaluator, k: string)
    requires IsStructured(Obj(fields)) && !IsLoneTerm(Compile(Obj(fields))) && input.Obj? && Unique(input.fields)
    requires '.' !in k && StemsApart(fields, k)
    requires MapOne(UpdateTemplate(c, Obj(fields)), input, eval).Some?
    ensures var out := MapOne(UpdateTemplate(c, Obj(fields)), input, eval).value;
            var last := LastFor(fields, k);
            && out.Obj?
            && Get(out.fields, k) ==
               Chosen(c.mode, if last.Some? then MakesOf(last.value, input, eval) else None, Given(input, k))
            && var own, given := InsertedAll([], Stems(fields)), KeysOf(input.fields);
               KeysOf(out.fields) ==
               match c.mode
               case Replace => own
               case Overwrite => InsertedAll(given, own)
               case Add => InsertedAll(own, given)
  {
    var after := UpdateTemplate(c, Obj(fields));
    var own := EvaluateSlots([], CompileFields(fields), input, eval);
    assert EvaluateNode(Compile(Obj(fields)), input, eval) == if own.None? then None else Some(Obj(own.value));
    SlotsMake([], fields, input, eval, k);
    CombinedGet(after, own.value, input, k);
  }

  /** Such as this: the template wins in overwrite mode, and the input in add mode. */
  lemma OneKeyInTwoModes(c: Config, eval: Evaluator)
    ensures var one, two := [Entry("a", Leaf(Number(1)))], [Entry("a", Leaf(Number(2)))];
            var overwriting, adding := UpdateTemplate(c.(mode := Overwrite), Obj(one)), UpdateTemplate(c.(mode := Add), Obj(one));
            MapOne(overwriting, Obj(two), eval) == Some(Obj(one)) && MapOne(adding, Obj(two), eval) == Some(Obj(two))
  {
    var one, two := [Entry("a", Leaf(Number(1)))], [Entry("a", Leaf(Number(2)))];
    assert one[1..] == [] && two[1..] == [];
    assert !IsStructured(Obj(one)) && !IsDynamic("a");
    assert Find(one, "a") == 0 && Find(two, "a") == 0;
    assert Put([], "a", Leaf(Number(1))) == one;
    assert PropertiesOf([], one) == one && TermsOf([], one) == [];
    assert PutAll(two, one) == one && PutAll(one, two) == two by {
      assert Put(two, "a", Leaf(Number(1))) == one && Put(one, "a", Leaf(Number(2))) == two;
    }
  }

  // ── Keys that dotted keys lead through ────────────────────────────────────

  /** What an assignment makes of what is held under the first name of its key:
      the value itself, or, for a dotted key, it merged into what is held. */
  function Applied(held: Option<Tree>, key: string, value: Tree): Tree {
    if '.' !in key || |Split(key, '.')| < 2 then value
    else Obj(Merge(if held.Some? && held.value.Obj? then held.value.fields else [], value, Split(key, '.')[1..]))
  }

  lemma AssignApplies(fields: Fields, key: string, value: Tree, k: string)
    requires Unique(fields) && '.' !in k
    ensures Unique(Assign(fields, key, value))
    ensures Get(Assign(fields, key, value), k) ==
            if Head(key) == k then Some(Applied(Get(fields, k), key, value)) else Get(fields, k)
  {
    AssignIs(fields, key, value);
    if '.' in key {
      SplitOfDotted(key);
    }
    GetPut(fields, Head(key), if '.' in key then Held(fields, key, value) else value, k);
  }

  /** The assignments to one first name, one after another. */
  function Statics(held: Option<Tree>, flat: Fields, k: string): Option<Tree>
    decreases |flat|
  {
    if flat == [] then held
    else
      var e := flat[0];
      Statics(if IsDynamic(e.key) || Head(e.key) != k then held else Some(Applied(held, e.key, e.value)), flat[1..], k)
  }

  /** The terms of a template, by their keys without the "=". */
  function Dynamics(flat: Fields): Fields {
    if flat == [] then []
    else (if IsDynamic(flat[0].key) then [Entry(Stem(flat[0].key), flat[0].value)] else []) + Dynamics(flat[1..])
  }

  /** The values of the terms for one first name, assigned one after another; in
      add mode the input's value in place of one that is for the name itself. */
  function Evaluated(held: Option<Tree>, terms: Fields, k: string, mode: Mode, input: Tree, eval: Evaluator): Option<Tree>
    decreases |terms|
  {
    if terms == [] then held
    else
      var e, value := terms[0], eval(terms[0].value, input);
      var kept := if mode.Add? && e.key == k then Given(input, k) else None;
      Evaluated(if Head(e.key) != k || value.None? then held
                else Some(Applied(held, e.key, if kept.Some? then kept.value else value.value)),
                terms[1..], k, mode, input, eval)
  }

  lemma {:induction false} PropertiesApply(properties: Fields, flat: Fields, k: string)
    requires Unique(properties) && '.' !in k
    ensures Unique(PropertiesOf(properties, flat))
    ensures Get(PropertiesOf(properties, flat), k) == Statics(Get(properties, k), flat, k)
    decreases |flat|
  {
    if flat != [] {
      var e := flat[0];
      AssignApplies(properties, e.key, e.value, k);
      PropertiesApply(if IsDynamic(e.key) then properties else Assign(properties, e.key, e.value), flat[1..], k);
    }
  }

  lemma {:induction false} TermsApply(result: Fields, terms: Fields, c: Config, input: Tree, eval: Evaluator, k: string)
    requires Unique(result) && '.' !in k && EvaluateTerms(result, terms, c, input, eval).Some?
    ensures Get(EvaluateTerms(result, terms, c, input, eval).value, k) ==
            Evaluated(Get(result, k), terms, k, c.mode, input, eval)
    decreases |terms|
  {
    if terms != [] {
      var key, value := terms[0].key, eval(terms[0].value, input);
      var kept := if c.mode.Add? && '.' !in key && input.Obj? then Get(input.fields, key) else None;
      var made := if kept.Some? then kept.value else value.value;
      AssignApplies(result, key, made, k);
      TermsApply(Assign(result, key, made), terms[1..], c, input, eval, k);
    }
  }

  lemma {:induction false} TermsAre(terms: Fields, flat: Fields)
    requires Unique(flat) && forall i | 0 <= i < |flat| && IsDynamic(flat[i].key) :: !Has(terms, Stem(flat[i].key))
    ensures TermsOf(terms, flat) == terms + Dynamics(flat)
    decreases |flat|
  {
    if flat == [] {
      assert terms + [] == terms;
    } else {
      var e, rest := flat[0], flat[1..];
      var own := if IsDynamic(e.key) then [Entry(Stem(e.key), e.value)] else [];
      forall i | 0 <= i < |rest| && IsDynamic(rest[i].key)
        ensures !Has(terms + own, Stem(rest[i].key))
      {
        var q := Stem(rest[i].key);
        assert rest[i] == flat[i + 1] && rest[i].key != e.key;
        StemIs(rest[i].key, q);
        StemIs(e.key, q);
        HasAt(terms, q);
        HasAt(terms + own, q);
      }
      assert forall i | 0 <= i < |rest| :: rest[i] == flat[i + 1];
      assert terms + [] == terms;
      TermsAre(terms + own, rest);
      Regroup(terms, own, Dynamics(rest));
    }
  }

  /** A flat template and any input, whatever dotted keys lead through the key:
      first whose value it is by the mode, the template's made of its own keys
      without "=", and then the terms for that first name, in order. */
  lemma FlatTemplateAnyKey(c: Config, flat: Fields, input: Tree, eval: Evaluator, k: string)
    requires Unique(flat) && Unique(Inputs(input)) && !IsStructured(Obj(flat)) && !IsLone(flat) && '.' !in k
    requires MapOne(UpdateTemplate(c, Obj(flat)), input, eval).Some?
    ensures var out := MapOne(UpdateTemplate(c, Obj(flat)), input, eval).value;
            && out.Obj?
            && Get(out.fields, k) ==
               Evaluated(Chosen(c.mode, Statics(None, flat, k), Given(input, k)), Dynamics(flat), k, c.mode, input, eval)
  {
    var after := UpdateTemplate(c, Obj(flat));
    FlatMakes(c, flat, input, eval);
    PropertiesApply([], flat, k);
    CombinedGet(after, after.properties, input, k);
    TermsApply(Combined(after, after.properties, input), Dynamics(flat), after, input, eval, k);
  }

  lemma FlatMakes(c: Config, flat: Fields, input: Tree, eval: Evaluator)
    requires Unique(flat) && !IsStructured(Obj(flat)) && !IsLone(flat)
    ensures var after := UpdateTemplate(c, Obj(flat));
            var made := EvaluateTerms(Combined(after, after.properties, input), Dynamics(flat), after, input, eval);
            && after.mode == c.mode && after.properties == PropertiesOf([], flat)
            && MapOne(after, input, eval) == if made.None? then None else Some(Obj(made.value))
  {
    TermsAre([], flat);
    assert [] + Dynamics(flat) == Dynamics(flat);
    var terms := TermsOf([], flat);
    if |terms| == 1 && terms[0].key == "" {
      LoneOnly(flat);
    }
  }

  /** The entries of a structured template for one first name, in order. */
  function Made(held: Option<Tree>, fields: Fields, k: string, input: Tree, eval: Evaluator): Option<Tree>
    decreases |fields|
  {
    if fields == [] then held
    else
      var e, value := fields[0], MakesOf(fields[0], input, eval);
      Made(if Head(Stem(e.key)) != k || value.None? then held else Some(Applied(held, Stem(e.key), value.value)),
           fields[1..], k, input, eval)
  }

  lemma {:induction false} SlotsApply(result: Fields, fields: Fields, input: Tree, eval: Evaluator, k: string)
    requires Unique(result) && '.' !in k && EvaluateSlots(result, CompileFields(fields), input, eval).Some?
    ensures var out := EvaluateSlots(result, CompileFields(fields), input, eval).value;
            Unique(out) && Get(out, k) == Made(Get(result, k), fields, k, input, eval)
    decreases |fields|
  {
    if fields != [] {
      var e, slots := fields[0], CompileFields(fields);
      assert slots[1..] == CompileFields(fields[1..]);
      var value := MakesOf(e, input, eval);
      assert EvaluateNode(slots[0].child, input, eval) == value;
      AssignApplies(result, Stem(e.key), value.value, k);
      SlotsApply(Assign(result, Stem(e.key), value.value), fields[1..], input, eval, k);
    }
  }

  /** The same of a structured template, with an object for input. */
  lemma StructuredTemplateAnyKey(c: Config, fields: Fields, input: Tree, eval: Evaluator, k: string)
    requires IsStructured(Obj(fields)) && !IsLoneTerm(Compile(Obj(fields))) && input.Obj? && Unique(input.fields) && '.' !in k
    requires MapOne(UpdateTemplate(c, Obj(fields)), input, eval).Some?
    ensures var out := MapOne(UpdateTemplate(c, Obj(fields)), input, eval).value;
            out.Obj? && Get(out.fields, k) == Chosen(c.mode, Made(None, fields, k, input, eval), Given(input, k))
  {
    var own := EvaluateSlots([], CompileFields(fields), input, eval);
    assert EvaluateNode(Compile(Obj(fields)), input, eval) == if own.None? then None else Some(Obj(own.value));
    SlotsApply([], fields, input, eval, k);
    CombinedGet(UpdateTemplate(c, Obj(fields)), own.value, input, k);
  }

  // ── Mounts named in what was made ─────────────────────────────────────────

  /** What is at the end of a path of keys, a list's items under their indices. */
  function TreeAt(t: Tree, path: seq<string>): Option<Tree>
    decreases |path|
  {
    if path == [] then Some(t)
    else
      var next := Get(Children(t), path[0]);
      if next.None? then None else TreeAt(next.value, path[1..])
  }

  ghost predicate Refers(s: string) { exists rest: string :: s == "hkp-mount://" + rest }

  lemma RefersIs(s: string)
    ensures IsMountReference(s) <==> Refers(s)
  {
    if IsMountReference(s) {
      Cut(s, |MOUNT_SCHEME|);
      assert s == "hkp-mount://" + s[|MOUNT_SCHEME|..];
    }
  }

  /** What becomes of one part: a reference is the address, any other scalar is
      itself, and a container keeps its kind and its keys. */
  ghost predicate IsNamed(was: Tree, now: Tree, mount: string) {
    match was
    case Leaf(Text(s)) => now == if Refers(s) then Leaf(Text(mount)) else was
    case Leaf(_) => now == was
    case Arr(items) => now.Arr? && |now.items| == |items|
    case Obj(fields) => now.Obj? && KeysOf(now.fields) == KeysOf(fields)
  }

  lemma {:induction false} NamedFields(fields: Fields, mount: string)
    ensures var now := AddressFields(fields, mount);
            KeysOf(now) == KeysOf(fields) && forall i | 0 <= i < |fields| :: now[i].value == WithAddress(fields[i].value, mount)
  {
    if fields != [] {
      var e := fields[0];
      NamedFields(fields[1..], mount);
      assert AddressFields(fields, mount)[1..] == AddressFields(fields[1..], mount);
      assert forall i | 0 < i < |fields| :: fields[i] == fields[1..][i - 1];
    }
  }

  lemma {:induction false} NamedItems(items: seq<Tree>, mount: string)
    ensures var now := AddressItems(items, mount);
            |now| == |items| && forall i | 0 <= i < |items| :: now[i] == WithAddress(items[i], mount)
  {
    if items != [] {
      NamedItems(items[1..], mount);
    }
  }

  lemma NamedChildren(t: Tree, mount: string)
    ensures var now, was := Children(WithAddress(t, mount)), Children(t);
            KeysOf(now) == KeysOf(was) && forall i | 0 <= i < |was| :: now[i].value == WithAddress(was[i].value, mount)
  {
    match t
    case Leaf(_) =>
    case Arr(items) => NamedItems(items, mount);
    case Obj(fields) => NamedFields(fields, mount);
  }

  lemma {:induction false} SameKeysFind(a: Fields, b: Fields, k: string)
    requires KeysOf(a) == KeysOf(b)
    ensures Find(a, k) == Find(b, k)
  {
    if a != [] {
      assert a[0].key == KeysOf(a)[0] && b[0].key == KeysOf(b)[0];
      assert KeysOf(a[1..]) == KeysOf(a)[1..] && KeysOf(b[1..]) == KeysOf(b)[1..];
      SameKeysFind(a[1..], b[1..], k);
    }
  }

  /** Naming a mount changes, anywhere in a tree, the references to one and
      nothing else. */
  lemma {:induction false} OnlyReferencesChange(t: Tree, mount: string, path: seq<string>)
    ensures var now, was := TreeAt(WithAddress(t, mount), path), TreeAt(t, path);
            (now.Some? <==> was.Some?) && (was.Some? ==> IsNamed(was.value, now.value, mount))
    decreases |path|
  {
    NamedChildren(t, mount);
    if path == [] {
      if t.Obj? {
        NamedFields(t.fields, mount);
      } else if t.Leaf? && t.scalar.Text? {
        RefersIs(t.scalar.s);
      }
    } else {
      SameKeysFind(Children(WithAddress(t, mount)), Children(t), path[0]);
      var next := Get(Children(t), path[0]);
      if next.Some? {
        OnlyReferencesChange(next.value, mount, path[1..]);
      }
    }
  }

  /** So does a pass, where its mount is one that has an address; any other
      leaves what was made as it is. */
  lemma PassNames(c: Config, t: Tree, path: seq<string>)
    ensures c.mount == "" || Refers(c.mount) ==> Addressed(c, t) == t
    ensures c.mount != "" && !Refers(c.mount) ==>
              var now, was := TreeAt(Addressed(c, t), path), TreeAt(t, path);
              (now.Some? <==> was.Some?) && (was.Some? ==> IsNamed(was.value, now.value, c.mount))
  {
    RefersIs(c.mount);
    OnlyReferencesChange(t, c.mount, path);
  }
}
