/** A dictionary that keeps insertion order, as Python's does: a sequence of
    entries, no two of one key. */
module OrderedDict {
  import opened Strings

  datatype Entry<K, V> = Entry(key: K, value: V)

  type Dict<K, V> = seq<Entry<K, V>>

  ghost predicate Unique<K, V>(d: Dict<K, V>) {
    forall i, j | 0 <= i < j < |d| :: d[i].key != d[j].key
  }

  /** Where a key is held, or the size of the dictionary. */
  function Find<K(==), V>(d: Dict<K, V>, k: K): (i: nat)
    ensures i <= |d|
    ensures i < |d| ==> d[i].key == k
    ensures forall j | 0 <= j < i :: d[j].key != k
  {
    if d == [] || d[0].key == k then 0 else 1 + Find(d[1..], k)
  }

  predicate Has<K(==), V>(d: Dict<K, V>, k: K) { Find(d, k) < |d| }

  function Get<K(==), V>(d: Dict<K, V>, k: K): Option<V> {
    if Has(d, k) then Some(d[Find(d, k)].value) else None
  }

  /** Assigning keeps the place of a key that is held and appends one that is not. */
  function Put<K(==), V>(d: Dict<K, V>, k: K, v: V): Dict<K, V> {
    if Has(d, k) then d[Find(d, k) := Entry(k, v)] else d + [Entry(k, v)]
  }

  function Remove<K(==), V>(d: Dict<K, V>, k: K): Dict<K, V> {
    var i := Find(d, k);
    if i < |d| then d[..i] + d[i + 1..] else d
  }

  function Keep<K, V>(d: Dict<K, V>, p: V -> bool): (r: Dict<K, V>)
    ensures |r| <= |d|
  {
    if d == [] then [] else (if p(d[0].value) then [d[0]] else []) + Keep(d[1..], p)
  }

  lemma FindHere<K, V>(d: Dict<K, V>, i: nat)
    requires Unique(d) && i < |d|
    ensures Find(d, d[i].key) == i
  {
  }

  lemma GetPut<K, V>(d: Dict<K, V>, k: K, v: V, k': K)
    requires Unique(d)
    ensures Unique(Put(d, k, v))
    ensures Get(Put(d, k, v), k') == if k' == k then Some(v) else Get(d, k')
  {
    var r := Put(d, k, v);
    if Has(r, k') {
      FindHere(r, Find(r, k'));
    }
    if Has(d, k') {
      assert r[Find(d, k')].key == k';
      FindHere(r, Find(d, k'));
    }
    if k' == k {
      FindHere(r, if Has(d, k) then Find(d, k) else |d|);
    }
  }

  lemma GetRemove<K, V>(d: Dict<K, V>, k: K, k': K)
    requires Unique(d)
    ensures Unique(Remove(d, k))
    ensures Get(Remove(d, k), k') == if k' == k then None else Get(d, k')
    ensures |Remove(d, k)| == |d| - (if Has(d, k) then 1 else 0)
  {
    var r := Remove(d, k);
    var i := Find(d, k);
    if i < |d| {
      assert forall j | 0 <= j < |r| :: r[j] == d[if j < i then j else j + 1];
      if Has(d, k') && k' != k {
        var j := Find(d, k');
        assert r[if j < i then j else j - 1].key == k';
        FindHere(r, if j < i then j else j - 1);
      }
    }
  }

  lemma {:induction false} KeepIn<K, V>(d: Dict<K, V>, p: V -> bool)
    ensures forall j | 0 <= j < |Keep(d, p)| :: p(Keep(d, p)[j].value) && Keep(d, p)[j] in d
  {
    if d != [] {
      KeepIn(d[1..], p);
    }
  }

  lemma GetCons<K, V>(e: Entry<K, V>, d: Dict<K, V>, k: K)
    ensures Get([e] + d, k) == if e.key == k then Some(e.value) else Get(d, k)
  {
    assert ([e] + d)[1..] == d;
  }

  lemma FindCons<K, V>(e: Entry<K, V>, d: Dict<K, V>, k: K)
    ensures Find([e] + d, k) == if e.key == k then 0 else Find(d, k) + 1
  {
    assert ([e] + d)[1..] == d;
  }

  lemma DropCons<K, V>(e: Entry<K, V>, d: Dict<K, V>, i: nat)
    requires i < |d|
    ensures ([e] + d)[..i + 1] + ([e] + d)[i + 2..] == [e] + (d[..i] + d[i + 1..])
  {
    assert ([e] + d)[i + 2..] == d[i + 1..];
    assert ([e] + d)[..i + 1] == [e] + d[..i];
  }

  lemma RemoveCons<K, V>(e: Entry<K, V>, d: Dict<K, V>, k: K)
    ensures Remove([e] + d, k) == if e.key == k then d else [e] + Remove(d, k)
  {
    FindCons(e, d, k);
    if e.key == k {
      assert ([e] + d)[..0] + ([e] + d)[1..] == d;
    } else if Has(d, k) {
      DropCons(e, d, Find(d, k));
    }
  }

  lemma {:induction false} KeepUnique<K, V>(d: Dict<K, V>, p: V -> bool)
    requires Unique(d)
    ensures Unique(Keep(d, p))
  {
    if d != [] {
      KeepUnique(d[1..], p);
      KeepIn(d[1..], p);
      var r := Keep(d[1..], p);
      assert forall j | 0 <= j < |r| :: r[j].key != d[0].key;
    }
  }

  lemma {:induction false} GetKeep<K, V>(d: Dict<K, V>, p: V -> bool, k: K)
    requires Unique(d)
    ensures Get(Keep(d, p), k) == if Has(d, k) && p(Get(d, k).value) then Get(d, k) else None
  {
    if d != [] {
      var e, rest := d[0], d[1..];
      assert d == [e] + rest;
      GetCons(e, rest, k);
      GetKeep(rest, p, k);
      if p(e.value) {
        GetCons(e, Keep(rest, p), k);
      } else {
        assert Keep(d, p) == Keep(rest, p);
        assert e.key == k ==> !Has(rest, k);
      }
    }
  }

  lemma {:induction false} KeepAppend<K, V>(d: Dict<K, V>, e: Entry<K, V>, p: V -> bool)
    ensures Keep(d + [e], p) == Keep(d, p) + (if p(e.value) then [e] else [])
  {
    if d == [] {
      assert d + [e] == [e];
      assert [e][1..] == [];
    } else {
      assert (d + [e])[1..] == d[1..] + [e];
      KeepAppend(d[1..], e, p);
    }
  }

  /** Keeping everything is keeping the dictionary. */
  lemma {:induction false} KeepAll<K, V>(d: Dict<K, V>, p: V -> bool)
    requires forall i | 0 <= i < |d| :: p(d[i].value)
    ensures Keep(d, p) == d
  {
    if d != [] {
      KeepAll(d[1..], p);
    }
  }
}
