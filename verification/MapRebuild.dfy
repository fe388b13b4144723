/** Rebuilding undoes flattening: a tree whose keys are plain comes back, its
    lists as objects keyed by index, and in whatever order its leaves are merged. */
module MapRebuild {
  import opened Strings
  import opened OrderedDict
  import opened MapTrees

  // ── Plain trees ───────────────────────────────────────────────────────────

  predicate IsKey(k: string) { k != "" && Free(k, '.') && k[|k| - 1] != '=' }

  /** Every key of the tree is a key of its own, not empty, without dots and not
      ending in "=". */
  predicate IsPlain(t: Tree)
    decreases t
  {
    match t
    case Leaf(_) => true
    case Obj(fields) => ArePlain(fields)
    case Arr(items) => forall i | 0 <= i < |items| :: IsPlain(items[i])
  }

  predicate ArePlain(fields: Fields)
    decreases fields
  {
    fields != [] ==>
      var first := fields[0];
      assert first.value < first;
      IsKey(first.key) && IsPlain(first.value) && !Has(fields[1..], first.key) && ArePlain(fields[1..])
  }

  /** The same of what containers hold, lists by index. */
  predicate Good(fields: Fields)
    decreases FieldsSize(fields)
  {
    fields != [] ==>
      IsKey(fields[0].key) && Good(Children(fields[0].value)) && !Has(fields[1..], fields[0].key) && Good(fields[1..])
  }

  lemma HasAt<V>(d: Dict<string, V>, k: string)
    ensures Has(d, k) <==> exists i :: 0 <= i < |d| && d[i].key == k
  {
  }

  lemma {:induction false} PlainIsGood(t: Tree)
    requires IsPlain(t)
    ensures Good(Children(t))
    decreases t, 1
  {
    match t
    case Leaf(_) =>
    case Obj(fields) => PlainFieldsAreGood(fields);
    case Arr(items) => PlainItemsAreGood(items, 0);
  }

  lemma {:induction false} PlainFieldsAreGood(fields: Fields)
    requires ArePlain(fields)
    ensures Good(fields)
    decreases fields
  {
    if fields != [] {
      var first := fields[0];
      assert first.value < first;
      PlainIsGood(first.value);
      PlainFieldsAreGood(fields[1..]);
    }
  }

  lemma {:induction false} PlainItemsAreGood(items: seq<Tree>, from: nat)
    requires forall i | 0 <= i < |items| :: IsPlain(items[i])
    ensures Good(Indexed(items, from))
    decreases items
  {
    if items != [] {
      var rest := Indexed(items[1..], from + 1);
      PlainIsGood(items[0]);
      PlainItemsAreGood(items[1..], from + 1);
      assert Indexed(items, from)[1..] == rest;
      HasAt(rest, Digits(from));
      assert forall i | 0 <= i < |rest| :: DecimalValue(rest[i].key) == from + 1 + i;
      assert DecimalValue(Digits(from)) == from;
      DigitsAreAKey(Digits(from));
    }
  }

  lemma DigitsAreAKey(s: string)
    requires s != "" && AllDigits(s)
    ensures IsKey(s)
  {
  }

  // ── Flattening is the leaves, by dotted paths ─────────────────────────────

  function PathTo(prefix: string, path: seq<string>): string
    decreases |path|
  {
    if path == [] then prefix else PathTo(MapTrees.PathOf(prefix, path[0]), path[1..])
  }

  function Dotted(prefix: string, leaves: seq<Placed>): (flat: Fields)
    ensures |flat| == |leaves|
    ensures forall i | 0 <= i < |leaves| :: flat[i] == Entry(PathTo(prefix, leaves[i].path), leaves[i].value)
  {
    if leaves == [] then []
    else [Entry(PathTo(prefix, leaves[0].path), leaves[0].value)] + Dotted(prefix, leaves[1..])
  }

  function PutAll(target: Fields, flat: Fields): Fields
    decreases |flat|
  {
    if flat == [] then target else PutAll(Put(target, flat[0].key, flat[0].value), flat[1..])
  }

  lemma {:induction false} PutAllAppend(target: Fields, a: Fields, b: Fields)
    ensures PutAll(target, a + b) == PutAll(PutAll(target, a), b)
    decreases |a|
  {
    if a == [] {
      assert a + b == b;
    } else {
      assert (a + b)[1..] == a[1..] + b;
      PutAllAppend(Put(target, a[0].key, a[0].value), a[1..], b);
    }
  }

  lemma DottedUnder(prefix: string, key: string, leaves: seq<Placed>)
    ensures Dotted(prefix, Under(key, leaves)) == Dotted(MapTrees.PathOf(prefix, key), leaves)
  {
    var a, b := Dotted(prefix, Under(key, leaves)), Dotted(MapTrees.PathOf(prefix, key), leaves);
    forall i | 0 <= i < |leaves|
      ensures a[i] == b[i]
    {
      assert ([key] + leaves[i].path)[1..] == leaves[i].path;
    }
  }

  lemma DottedOne(prefix: string, key: string, value: Tree)
    ensures Dotted(prefix, [Placed([key], value)]) == [Entry(MapTrees.PathOf(prefix, key), value)]
  {
    assert PathTo(prefix, [key]) == PathTo(MapTrees.PathOf(prefix, key), [key][1..]);
  }

  lemma DottedAppend(prefix: string, a: seq<Placed>, b: seq<Placed>)
    ensures Dotted(prefix, a + b) == Dotted(prefix, a) + Dotted(prefix, b)
  {
  }

  /** Flattening puts each leaf under its dotted path, in order. */
  lemma {:induction false} FlattenIsDotted(fields: Fields, prefix: string, target: Fields)
    ensures FlattenInto(fields, prefix, target) == PutAll(target, Dotted(prefix, Leaves(fields)))
    decreases FieldsSize(fields)
  {
    if fields != [] {
      var e := fields[0];
      var path := MapTrees.PathOf(prefix, e.key);
      var first := if IsBranch(e.value) then Under(e.key, Leaves(Children(e.value))) else [Placed([e.key], e.value)];
      var next := if IsBranch(e.value) then FlattenInto(Children(e.value), path, target) else Put(target, path, e.value);
      if IsBranch(e.value) {
        FlattenIsDotted(Children(e.value), path, target);
        DottedUnder(prefix, e.key, Leaves(Children(e.value)));
      } else {
        DottedOne(prefix, e.key, e.value);
        assert PutAll(target, [Entry(path, e.value)]) == next by {
          assert [Entry(path, e.value)][1..] == [];
        }
      }
      FlattenIsDotted(fields[1..], prefix, next);
      DottedAppend(prefix, first, Leaves(fields[1..]));
      PutAllAppend(target, Dotted(prefix, first), Dotted(prefix, Leaves(fields[1..])));
    }
  }

  // ── Paths of a plain tree ─────────────────────────────────────────────────

  predicate ArePath(path: seq<string>) { path != [] && forall i | 0 <= i < |path| :: IsKey(path[i]) }

  /** Neither path leads through the other. */
  predicate Apart(p: seq<string>, q: seq<string>) { !(p <= q) && !(q <= p) }

  ghost predicate AllApart(leaves: seq<Placed>) {
    forall i, j | 0 <= i < j < |leaves| :: Apart(leaves[i].path, leaves[j].path)
  }

  lemma PrefixUnder(k: string, p: seq<string>, q: seq<string>)
    ensures [k] + p <= [k] + q <==> p <= q
  {
    assert ([k] + q)[1..] == q && ([k] + p)[1..] == p;
    if |p| <= |q| {
      assert ([k] + q)[..|p| + 1] == [k] + q[..|p|];
      assert ([k] + q[..|p|])[1..] == q[..|p|];
    }
  }

  lemma {:induction false} LeavesBeginWithKeys(fields: Fields)
    ensures forall i | 0 <= i < |Leaves(fields)| :: Has(fields, Leaves(fields)[i].path[0])
    decreases FieldsSize(fields)
  {
    if fields != [] {
      var e, rest := fields[0], fields[1..];
      LeavesBeginWithKeys(rest);
      forall k | Has(rest, k)
        ensures Has(fields, k)
      {
        assert fields == [e] + rest;
      }
    }
  }

  ghost predicate ArePaths(leaves: seq<Placed>) { forall i | 0 <= i < |leaves| :: ArePath(leaves[i].path) }

  lemma {:induction false} UnderIsApart(k: string, leaves: seq<Placed>)
    requires IsKey(k) && ArePaths(leaves) && AllApart(leaves)
    ensures ArePaths(Under(k, leaves)) && AllApart(Under(k, leaves))
  {
    var r := Under(k, leaves);
    forall i, j | 0 <= i < j < |r|
      ensures Apart(r[i].path, r[j].path)
    {
      PrefixUnder(k, leaves[i].path, leaves[j].path);
      PrefixUnder(k, leaves[j].path, leaves[i].path);
    }
  }

  lemma TogetherApart(k: string, a: seq<Placed>, b: seq<Placed>)
    requires AllApart(a) && AllApart(b) && ArePaths(a) && ArePaths(b)
    requires forall i | 0 <= i < |a| :: a[i].path[0] == k
    requires forall i | 0 <= i < |b| :: b[i].path[0] != k
    ensures AllApart(a + b) && ArePaths(a + b)
  {
    forall i, j | 0 <= i < j < |a + b|
      ensures Apart((a + b)[i].path, (a + b)[j].path)
    {
      if i < |a| <= j {
        assert a[i].path[0] != b[j - |a|].path[0];
      }
    }
  }

  /** The leaves of a plain tree are at paths of keys, none on the way to another. */
  lemma {:induction false} LeavesAreApart(fields: Fields)
    requires Good(fields)
    ensures ArePaths(Leaves(fields)) && AllApart(Leaves(fields))
    decreases FieldsSize(fields)
  {
    if fields != [] {
      var e, rest := fields[0], fields[1..];
      var first := if IsBranch(e.value) then Under(e.key, Leaves(Children(e.value))) else [Placed([e.key], e.value)];
      LeavesAreApart(rest);
      LeavesBeginWithKeys(rest);
      if IsBranch(e.value) {
        LeavesAreApart(Children(e.value));
        UnderIsApart(e.key, Leaves(Children(e.value)));
      }
      TogetherApart(e.key, first, Leaves(rest));
    }
  }

  lemma {:induction false} PathToIsJoin(path: seq<string>)
    requires ArePath(path)
    ensures PathTo("", path) == Join(path, '.')
  {
    PathToAfter(path[0], path[1..]);
    assert path == [path[0]] + path[1..];
  }

  lemma {:induction false} PathToAfter(prefix: string, path: seq<string>)
    requires prefix != ""
    ensures PathTo(prefix, path) == Join([prefix] + path, '.')
    decreases |path|
  {
    if path == [] {
      assert [prefix] + path == [prefix];
    } else {
      var all := [prefix] + path;
      assert all[1..] == path;
      PathToAfter(prefix + "." + path[0], path[1..]);
      JoinMerged(prefix, path);
    }
  }

  lemma Grouped(a: string, b: string, c: string, d: string)
    ensures a + b + c + d == a + (b + c + d)
  {
  }

  lemma JoinMerged(prefix: string, path: seq<string>)
    requires path != []
    ensures Join([prefix + "." + path[0]] + path[1..], '.') == prefix + "." + Join(path, '.')
  {
    var merged := [prefix + "." + path[0]] + path[1..];
    assert merged[1..] == path[1..];
    if |path| > 1 {
      Grouped(prefix + ".", path[0], ['.'], Join(path[1..], '.'));
    }
  }

  lemma SplitPath(path: seq<string>)
    requires ArePath(path)
    ensures Split(PathTo("", path), '.') == path
  {
    PathToIsJoin(path);
    SplitJoin(path, '.');
  }

  // ── Merging the leaves of a plain tree ────────────────────────────────────

  ghost predicate UniqueKeys(flat: Fields) { forall i, j | 0 <= i < j < |flat| :: flat[i].key != flat[j].key }

  lemma {:induction false} PutAllAppends(target: Fields, flat: Fields)
    requires UniqueKeys(target + flat)
    ensures PutAll(target, flat) == target + flat
    decreases |flat|
  {
    if flat == [] {
      assert target + flat == target;
    } else {
      var next := target + [flat[0]];
      assert !Has(target, flat[0].key) by {
        assert (target + flat)[|target|] == flat[0];
        assert forall i | 0 <= i < |target| :: (target + flat)[i] == target[i];
      }
      assert next + flat[1..] == target + flat;
      PutAllAppends(next, flat[1..]);
    }
  }

  lemma DottedIsUnique(leaves: seq<Placed>)
    requires ArePaths(leaves) && AllApart(leaves)
    ensures UniqueKeys(Dotted("", leaves))
  {
    var flat := Dotted("", leaves);
    forall i, j | 0 <= i < j < |flat|
      ensures flat[i].key != flat[j].key
    {
      SplitPath(leaves[i].path);
      SplitPath(leaves[j].path);
      assert leaves[i].path != leaves[j].path;
    }
  }

  /** What a plain tree flattens to: its leaves under their dotted paths. */
  lemma FlattenIsLeaves(fields: Fields)
    requires Good(fields)
    ensures FlattenInto(fields, "", []) == Dotted("", Leaves(fields)) && UniqueKeys(Dotted("", Leaves(fields)))
  {
    var flat := Dotted("", Leaves(fields));
    FlattenIsDotted(fields, "", []);
    LeavesAreApart(fields);
    DottedIsUnique(Leaves(fields));
    assert [] + flat == flat;
    PutAllAppends([], flat);
  }

  lemma SegmentHasNoDot(k: string)
    requires Free(k, '.')
    ensures '.' !in k
  {
  }

  lemma AssignIsMerge(fields: Fields, path: seq<string>, value: Tree)
    requires ArePath(path)
    ensures Assign(fields, PathTo("", path), value) == Merge(fields, value, path)
  {
    SplitPath(path);
    PathToIsJoin(path);
    if |path| == 1 {
      SegmentHasNoDot(path[0]);
    } else {
      assert Join(path, '.')[|path[0]|] == '.';
    }
  }

  lemma {:induction false} AssignAllIsMergeAll(fields: Fields, leaves: seq<Placed>)
    requires ArePaths(leaves)
    ensures AssignAll(fields, Dotted("", leaves)) == MergeAll(fields, leaves)
    decreases |leaves|
  {
    if leaves != [] {
      var first := leaves[0];
      AssignIsMerge(fields, first.path, first.value);
      AssignAllIsMergeAll(Merge(fields, first.value, first.path), leaves[1..]);
      assert Dotted("", leaves)[1..] == Dotted("", leaves[1..]);
    }
  }

  lemma {:induction false} MergeAllAppend(fields: Fields, a: seq<Placed>, b: seq<Placed>)
    requires forall i | 0 <= i < |a| :: a[i].path != []
    requires forall i | 0 <= i < |b| :: b[i].path != []
    ensures MergeAll(fields, a + b) == MergeAll(MergeAll(fields, a), b)
    decreases |a|
  {
    if a == [] {
      assert a + b == b;
    } else {
      assert (a + b)[1..] == a[1..] + b;
      MergeAllAppend(Merge(fields, a[0].value, a[0].path), a[1..], b);
    }
  }

  lemma PutTwice(d: Fields, k: string, v: Tree, w: Tree)
    ensures Get(Put(d, k, v), k) == Some(v)
    ensures Put(Put(d, k, v), k, w) == Put(d, k, w)
  {
    var r := Put(d, k, v);
    var i := Find(d, k);
    assert r[i] == Entry(k, v);
    assert forall j | 0 <= j < i :: r[j] == d[j];
    assert Find(r, k) == i;
  }

  /** Merging leaves under one key merges them in what is under that key. */
  lemma {:induction false} MergeUnder(fields: Fields, k: string, leaves: seq<Placed>)
    requires leaves != [] && forall i | 0 <= i < |leaves| :: leaves[i].path != []
    ensures MergeAll(fields, Under(k, leaves)) == Put(fields, k, Obj(MergeAll(Branch(fields, k), leaves)))
    decreases |leaves|
  {
    var first, rest := leaves[0], leaves[1..];
    var inner := Merge(Branch(fields, k), first.value, first.path);
    var next := Put(fields, k, Obj(inner));
    assert ([k] + first.path)[1..] == first.path;
    assert Merge(fields, first.value, [k] + first.path) == next;
    PutTwice(fields, k, Obj(inner), Obj(MergeAll(inner, rest)));
    if rest == [] {
      assert Under(k, leaves)[1..] == [];
    } else {
      MergeUnder(next, k, rest);
    }
  }

  function LeavesAt(e: Entry<string, Tree>): (r: seq<Placed>)
    ensures forall i | 0 <= i < |r| :: r[i].path != []
  {
    if IsBranch(e.value) then Under(e.key, Leaves(Children(e.value))) else [Placed([e.key], e.value)]
  }

  lemma {:induction false} FirstRebuilds(done: Fields, e: Entry<string, Tree>)
    requires Good(Children(e.value)) && !Has(done, e.key)
    ensures MergeAll(done, LeavesAt(e)) == done + [Entry(e.key, Objects(e.value))]
    decreases Size(e.value), 0
  {
    if IsBranch(e.value) {
      var inner := Children(e.value);
      LeavesRebuild([], inner);
      MergeUnder(done, e.key, Leaves(inner));
      assert [] + ObjectsOf(inner) == ObjectsOf(inner);
    } else {
      assert LeavesAt(e)[1..] == [];
    }
  }

  lemma StillMissing(done: Fields, fields: Fields, built: Entry<string, Tree>)
    requires fields != [] && built.key == fields[0].key && !Has(fields[1..], built.key)
    requires forall i | 0 <= i < |fields| :: !Has(done, fields[i].key)
    ensures forall i | 0 <= i < |fields[1..]| :: !Has(done + [built], fields[1..][i].key)
  {
    var rest := fields[1..];
    forall i | 0 <= i < |rest|
      ensures !Has(done + [built], rest[i].key)
    {
      assert rest[i] == fields[i + 1];
      HasAt(rest, built.key);
      HasAt(done, rest[i].key);
      HasAt(done + [built], rest[i].key);
    }
  }

  lemma OneThenRest<T>(a: seq<T>, x: T, b: seq<T>)
    ensures a + [x] + b == a + ([x] + b)
  {
  }

  /** Merging the leaves of a plain tree builds that tree, with objects for its
      lists, in its order. */
  lemma {:induction false} LeavesRebuild(done: Fields, fields: Fields)
    requires Good(fields) && forall i | 0 <= i < |fields| :: !Has(done, fields[i].key)
    ensures MergeAll(done, Leaves(fields)) == done + ObjectsOf(fields)
    decreases FieldsSize(fields), 1
  {
    if fields == [] {
      assert done + [] == done;
    } else {
      var e, rest := fields[0], fields[1..];
      var built := Entry(e.key, Objects(e.value));
      FirstRebuilds(done, e);
      StillMissing(done, fields, built);
      LeavesRebuild(done + [built], rest);
      MergeAllAppend(done, LeavesAt(e), Leaves(rest));
      OneThenRest(done, built, ObjectsOf(rest));
    }
  }

  /** Assigning what a plain tree flattens to, key by key, rebuilds it. */
  lemma AssigningRebuilds(t: Tree)
    requires IsPlain(t)
    ensures AssignAll([], Flatten(t)) == ObjectsOf(Children(t))
  {
    var fields := Children(t);
    PlainIsGood(t);
    FlattenIsLeaves(fields);
    LeavesAreApart(fields);
    AssignAllIsMergeAll([], Leaves(fields));
    LeavesRebuild([], fields);
    assert [] + ObjectsOf(fields) == ObjectsOf(fields);
  }
}
