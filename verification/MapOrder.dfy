/** Merges at paths that keep out of each other's way give one tree in any order,
    but for the order of its keys. */
module MapOrder {
  import opened Strings
  import opened OrderedDict
  import opened MapTrees
  import opened MapRebuild

  /** A tree without the order of its keys, which equality of dictionaries does
      not look at. */
  datatype Loose = One(scalar: Scalar) | Keyed(fields: map<string, Loose>) | Listed(items: seq<Loose>)

  function Loosen(t: Tree): Loose
    decreases t
  {
    match t
    case Leaf(x) => One(x)
    case Obj(fields) => Keyed(LoosenFields(fields))
    case Arr(items) => Listed(LoosenItems(items))
  }

  function LoosenFields(fields: Fields): map<string, Loose>
    decreases fields
  {
    if fields == [] then map[]
    else
      var first := fields[0];
      assert first.value < first;
      LoosenFields(fields[1..])[first.key := Loosen(first.value)]
  }

  function LoosenItems(items: seq<Tree>): seq<Loose>
    decreases items
  {
    if items == [] then [] else [Loosen(items[0])] + LoosenItems(items[1..])
  }

  function LooseBranch(fields: map<string, Loose>, key: string): map<string, Loose> {
    if key in fields && fields[key].Keyed? then fields[key].fields else map[]
  }

  function LooseMerge(fields: map<string, Loose>, value: Loose, path: seq<string>): map<string, Loose>
    requires path != []
    decreases |path|
  {
    fields[path[0] := if |path| == 1 then value else Keyed(LooseMerge(LooseBranch(fields, path[0]), value, path[1..]))]
  }

  function LooseMergeAll(fields: map<string, Loose>, leaves: seq<Placed>): map<string, Loose>
    requires forall i | 0 <= i < |leaves| :: leaves[i].path != []
    decreases |leaves|
  {
    if leaves == [] then fields
    else LooseMergeAll(LooseMerge(fields, Loosen(leaves[0].value), leaves[0].path), leaves[1..])
  }

  // ── Merging before loosening, or after ────────────────────────────────────

  lemma {:induction false} LooseGet(fields: Fields, k: string)
    ensures k in LoosenFields(fields) <==> Has(fields, k)
    ensures Has(fields, k) ==> LoosenFields(fields)[k] == Loosen(Get(fields, k).value)
  {
    if fields != [] {
      LooseGet(fields[1..], k);
      assert fields == [fields[0]] + fields[1..];
      GetCons(fields[0], fields[1..], k);
    }
  }

  lemma {:induction false} LoosePut(fields: Fields, k: string, v: Tree)
    ensures LoosenFields(Put(fields, k, v)) == LoosenFields(fields)[k := Loosen(v)]
  {
    var r := Put(fields, k, v);
    if fields == [] {
      assert r == [Entry(k, v)] && r[1..] == [];
    } else if fields[0].key == k {
      assert r[1..] == fields[1..];
    } else {
      LoosePut(fields[1..], k, v);
      assert Find(fields, k) == 1 + Find(fields[1..], k);
      assert r[1..] == Put(fields[1..], k, v);
    }
  }

  lemma {:induction false} LoosenMerge(fields: Fields, value: Tree, path: seq<string>)
    requires path != []
    ensures LoosenFields(Merge(fields, value, path)) == LooseMerge(LoosenFields(fields), Loosen(value), path)
    decreases |path|
  {
    var k := path[0];
    LooseGet(fields, k);
    if |path| == 1 {
      LoosePut(fields, k, value);
    } else {
      var inner := Merge(Branch(fields, k), value, path[1..]);
      LoosenMerge(Branch(fields, k), value, path[1..]);
      LoosePut(fields, k, Obj(inner));
      assert LooseBranch(LoosenFields(fields), k) == LoosenFields(Branch(fields, k));
    }
  }

  lemma {:induction false} LoosenMergeAll(fields: Fields, leaves: seq<Placed>)
    requires forall i | 0 <= i < |leaves| :: leaves[i].path != []
    ensures LoosenFields(MergeAll(fields, leaves)) == LooseMergeAll(LoosenFields(fields), leaves)
    decreases |leaves|
  {
    if leaves != [] {
      LoosenMerge(fields, leaves[0].value, leaves[0].path);
      LoosenMergeAll(Merge(fields, leaves[0].value, leaves[0].path), leaves[1..]);
    }
  }

  // ── Order does not matter ─────────────────────────────────────────────────

  lemma MergesApart(fields: map<string, Loose>, p: seq<string>, v: Loose, q: seq<string>, w: Loose)
    requires p != [] && q != [] && p[0] != q[0]
    ensures LooseMerge(LooseMerge(fields, v, p), w, q) == LooseMerge(LooseMerge(fields, w, q), v, p)
  {
    var a, b := LooseMerge(fields, v, p), LooseMerge(fields, w, q);
    assert LooseBranch(a, q[0]) == LooseBranch(fields, q[0]) && LooseBranch(b, p[0]) == LooseBranch(fields, p[0]);
    assert a == fields[p[0] := a[p[0]]] && b == fields[q[0] := b[q[0]]];
    assert LooseMerge(a, w, q) == a[q[0] := b[q[0]]] && LooseMerge(b, v, p) == b[p[0] := a[p[0]]];
    assert fields[p[0] := a[p[0]]][q[0] := b[q[0]]] == fields[q[0] := b[q[0]]][p[0] := a[p[0]]];
  }

  lemma MergesWithin(fields: map<string, Loose>, p: seq<string>, v: Loose, q: seq<string>, w: Loose)
    requires |p| > 1 && |q| > 1 && p[0] == q[0]
    ensures LooseMerge(LooseMerge(fields, v, p), w, q) ==
            fields[p[0] := Keyed(LooseMerge(LooseMerge(LooseBranch(fields, p[0]), v, p[1..]), w, q[1..]))]
  {
    var inner := LooseMerge(LooseBranch(fields, p[0]), v, p[1..]);
    var a := LooseMerge(fields, v, p);
    assert LooseBranch(a, p[0]) == inner;
    assert a[p[0] := Keyed(LooseMerge(inner, w, q[1..]))] == fields[p[0] := Keyed(LooseMerge(inner, w, q[1..]))];
  }

  lemma {:induction false} MergesCommute(fields: map<string, Loose>, p: seq<string>, v: Loose, q: seq<string>, w: Loose)
    requires p != [] && q != [] && Apart(p, q)
    ensures LooseMerge(LooseMerge(fields, v, p), w, q) == LooseMerge(LooseMerge(fields, w, q), v, p)
    decreases |p|
  {
    if p[0] != q[0] {
      MergesApart(fields, p, v, q, w);
    } else {
      ApartInside(p, q);
      MergesWithin(fields, p, v, q, w);
      MergesWithin(fields, q, w, p, v);
      MergesCommute(LooseBranch(fields, p[0]), p[1..], v, q[1..], w);
    }
  }

  lemma ApartInside(p: seq<string>, q: seq<string>)
    requires p != [] && q != [] && Apart(p, q) && p[0] == q[0]
    ensures |p| > 1 && |q| > 1 && Apart(p[1..], q[1..])
  {
    assert p == [p[0]] + p[1..] && q == [p[0]] + q[1..];
    PrefixUnder(p[0], p[1..], q[1..]);
    PrefixUnder(p[0], q[1..], p[1..]);
  }

  predicate HavePaths(leaves: seq<Placed>) { forall i | 0 <= i < |leaves| :: leaves[i].path != [] }

  /** A leaf apart from those before it may as well be merged first. */
  lemma {:induction false} MergedFirst(fields: map<string, Loose>, before: seq<Placed>, x: Placed, after: seq<Placed>)
    requires HavePaths(before) && x.path != [] && HavePaths(after)
    requires forall i | 0 <= i < |before| :: Apart(before[i].path, x.path)
    ensures LooseMergeAll(fields, before + [x] + after) == LooseMergeAll(fields, [x] + (before + after))
    decreases |before|
  {
    if before == [] {
      assert before + [x] + after == [x] + (before + after);
    } else {
      var b, rest := before[0], before[1..];
      var value := Loosen(b.value);
      assert (before + [x] + after)[1..] == rest + [x] + after;
      MergedFirst(LooseMerge(fields, value, b.path), rest, x, after);
      assert ([x] + (rest + after))[1..] == rest + after;
      MergesCommute(fields, b.path, value, x.path, Loosen(x.value));
      assert ([x] + (before + after))[1..] == before + after;
      assert (before + after)[1..] == rest + after;
    }
  }

  /** No leaf is in the way of another, or there twice. */
  ghost predicate Clear(leaves: seq<Placed>) { HavePaths(leaves) && AllApart(leaves) }

  lemma ApartBothWays(leaves: seq<Placed>, i: nat, j: nat)
    requires AllApart(leaves) && i < |leaves| && j < |leaves| && i != j
    ensures Apart(leaves[i].path, leaves[j].path)
  {
  }

  function Without(leaves: seq<Placed>, i: nat): (left: seq<Placed>)
    requires i < |leaves|
    ensures |left| == |leaves| - 1
  {
    leaves[..i] + leaves[i + 1..]
  }

  lemma WithoutOne(leaves: seq<Placed>, i: nat)
    requires Clear(leaves) && i < |leaves|
    ensures Clear(Without(leaves, i)) && multiset(Without(leaves, i)) == multiset(leaves) - multiset{leaves[i]}
  {
    var left := Without(leaves, i);
    assert leaves == leaves[..i] + [leaves[i]] + leaves[i + 1..];
    assert forall j | 0 <= j < |left| :: left[j] == leaves[if j < i then j else j + 1];
  }

  lemma MovedFirst(fields: map<string, Loose>, leaves: seq<Placed>, i: nat)
    requires Clear(leaves) && i < |leaves|
    ensures HavePaths(Without(leaves, i))
    ensures LooseMergeAll(fields, leaves) ==
            LooseMergeAll(LooseMerge(fields, Loosen(leaves[i].value), leaves[i].path), Without(leaves, i))
  {
    var x, before, after := leaves[i], leaves[..i], leaves[i + 1..];
    forall j | 0 <= j < i
      ensures Apart(before[j].path, x.path)
    {
      ApartBothWays(leaves, j, i);
    }
    WithoutOne(leaves, i);
    MergedFirst(fields, before, x, after);
    assert leaves == before + [x] + after;
    assert ([x] + (before + after))[1..] == before + after;
  }

  /** The same leaves, merged in any order, give the same tree. */
  lemma {:induction false} AnyOrderGivesTheSame(fields: map<string, Loose>, a: seq<Placed>, b: seq<Placed>)
    requires Clear(a) && Clear(b) && multiset(a) == multiset(b)
    ensures LooseMergeAll(fields, a) == LooseMergeAll(fields, b)
    decreases |a|
  {
    if |a| == 0 {
      assert |multiset(b)| == |b|;
    } else {
      assert a[0] in multiset(b);
      var i :| 0 <= i < |b| && b[i] == a[0];
      WithoutOne(a, 0);
      WithoutOne(b, i);
      MovedFirst(fields, a, 0);
      MovedFirst(fields, b, i);
      AnyOrderGivesTheSame(LooseMerge(fields, Loosen(a[0].value), a[0].path), Without(a, 0), Without(b, i));
    }
  }

  /** However the leaves of a plain tree are ordered, merging them builds that
      tree, with objects for its lists. */
  lemma AnyOrderRebuilds(t: Tree, leaves: seq<Placed>)
    requires IsPlain(t) && HavePaths(leaves) && AllApart(leaves)
    requires multiset(leaves) == multiset(Leaves(Children(t)))
    ensures Loosen(Obj(MergeAll([], leaves))) == Loosen(Obj(ObjectsOf(Children(t))))
  {
    var inOrder := Leaves(Children(t));
    PlainIsGood(t);
    LeavesAreApart(Children(t));
    LeavesRebuild([], Children(t));
    assert [] + ObjectsOf(Children(t)) == ObjectsOf(Children(t));
    LoosenMergeAll([], leaves);
    LoosenMergeAll([], inOrder);
    AnyOrderGivesTheSame(map[], leaves, inOrder);
  }
}
