/** The asset store as the source has it: fields updated in place by calls that
    nothing interleaves with. Listeners are not part of it. */
module AssetStore {
  import opened Strings
  import opened OrderedDict
  import opened Assets
  import opened AssetRuns

  lemma RemovesOldest(s: State)
    requires s.cache != []
    ensures Forget(s, s.cache[0].key) == s.(cache := s.cache[1..], cachedBytes := s.cachedBytes - SizeOf(s.cache[0]))
  {
    assert Remove(s.cache, s.cache[0].key) == s.cache[1..];
  }

  class AssetStore {
    const limits: Limits
    var descriptors: map<string, Descriptor>
    var cache: Dict<string, CacheEntry>
    var cachedBytes: int

    constructor (limits: Limits)
      ensures this.limits == limits && Now() == EMPTY && Valid()
    {
      this.limits := limits;
      descriptors, cache, cachedBytes := map[], [], 0;
    }

    function Now(): State
      reads this
    {
      State(descriptors, cache, cachedBytes)
    }

    ghost predicate Valid()
      reads this
    {
      Sound(Now(), limits)
    }

    method ForgetEntry(id: string)
      modifies this
      ensures Now() == Forget(old(Now()), id)
    {
      var entry := Get(cache, id);
      cache := Remove(cache, id);
      if entry.Some? {
        cachedBytes := cachedBytes - |entry.value.asset.content|;
      }
    }

    method EvictFor(size: nat)
      requires Unique(cache)
      modifies this
      ensures Now() == MakeRoom(old(Now()), size, limits.maxCacheBytes)
    {
      while cache != [] && cachedBytes + size > limits.maxCacheBytes
        invariant MakeRoom(Now(), size, limits.maxCacheBytes) == MakeRoom(old(Now()), size, limits.maxCacheBytes)
        invariant Unique(cache)
        decreases |cache|
      {
        RemovesOldest(Now());
        ForgetEntry(cache[0].key);
      }
    }

    method RememberEntry(id: string, e: CacheEntry)
      requires Accounted(Now(), limits)
      modifies this
      ensures Now() == Remember(old(Now()), id, e, limits)
      ensures Accounted(Now(), limits)
    {
      RememberAccounted(Now(), id, e, limits);
      ForgetAccounted(Now(), id, limits);
      ForgetEntry(id);
      var size := |e.asset.content|;
      if size > limits.maxCacheBytes {
        return;
      }
      EvictFor(size);
      cache := cache + [Entry(id, e)];
      cachedBytes := cachedBytes + size;
    }

    method ReplaceAll(entries: map<string, Descriptor>)
      requires Valid()
      modifies this
      ensures Now() == Replace(old(Now()), entries) && Valid()
    {
      var previous := descriptors;
      descriptors := entries;
      var touched := previous.Keys + entries.Keys;
      ghost var gone: set<string> := {};
      NothingGone(cache);
      while touched != {}
        invariant descriptors == entries && Accounted(Now(), limits)
        invariant gone !! touched && gone == Changed(previous, entries) - touched
        invariant cache == Without(old(cache), gone)
        decreases touched
      {
        var id :| id in touched;
        touched := touched - {id};
        if DescriptorOf(State(previous, [], 0), id) != DescriptorOf(Now(), id) {
          ForgetAccounted(Now(), id, limits);
          WithoutMore(old(cache), gone, id);
          ForgetEntry(id);
          gone := gone + {id};
        }
      }
      assert gone == Changed(previous, entries);
      ReplaceSound(old(Now()), entries, limits);
    }

    method MergeAll(entries: seq<(string, Option<Descriptor>)>)
      requires Valid()
      modifies this
      ensures Now() == Merge(old(Now()), entries) && Valid()
    {
      MergeSound(Now(), entries, limits);
      assert entries[0..] == entries;
      for i := 0 to |entries|
        invariant Accounted(Now(), limits)
        invariant Merge(Now(), entries[i..]) == Merge(old(Now()), entries)
      {
        var (id, entry) := entries[i];
        assert entries[i..][1..] == entries[i + 1..];
        var previous := DescriptorOf(Now(), id);
        descriptors := if entry.Some? then descriptors[id := entry.value] else descriptors - {id};
        if previous != entry {
          ForgetAccounted(Now(), id, limits);
          ForgetEntry(id);
        }
      }
    }

    method ResolveReference(reference: string, net: Fetched) returns (r: Resolution)
      requires Valid()
      modifies this
      ensures (Now(), r) == Resolve(old(Now()), reference, limits, net) && Valid()
      ensures Answers(old(Now()), reference, limits, net, r)
    {
      ResolveSound(Now(), reference, limits, net);
      ResolveAnswers(Now(), reference, limits, net);
      var parsed := ParseRef(reference);
      if parsed.None? {
        return Refused(NotAReference);
      }
      var id := parsed.value;
      var descriptor, cached := DescriptorOf(Now(), id), Get(cache, id);
      if descriptor.None? {
        return Refused(Unknown(id));
      }
      var d := descriptor.value;
      var current := cached.Some? && cached.value.version == d;
      if current && !Revalidates(d) {
        TouchAccounted(Now(), id, limits);
        cache := Remove(cache, id) + [cache[Find(cache, id)]];
        return Resolved(cached.value.asset);
      }
      var loaded := Load(d, if current then cached else None, limits, net);
      if loaded.NotLoaded? {
        return Refused(loaded.problem);
      }
      var problem := Check(d, loaded.content, limits);
      if problem.Some? {
        return Refused(problem.value);
      }
      var asset := Asset(id, d.mediaType, loaded.content);
      if DescriptorOf(Now(), id) == Some(d) {
        RememberEntry(id, CacheEntry(d, asset, loaded.etag));
      }
      r := Resolved(asset);
    }
  }

  lemma {:induction false} NothingGone(cache: Dict<string, CacheEntry>)
    ensures Without(cache, {}) == cache
  {
    if cache != [] {
      NothingGone(cache[1..]);
    }
  }
}
