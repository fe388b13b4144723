/** Runs of the asset store: one call after another, and calls of several threads
    interleaved between their locked sections. */
module AssetRuns {
  import opened Strings
  import opened OrderedDict
  import opened Assets

  // ── One call after another ────────────────────────────────────────────────

  datatype Call =
    | ReplaceCall(entries: map<string, Descriptor>)
    | MergeCall(changes: seq<(string, Option<Descriptor>)>)
    | ResolveCall(reference: string, net: Fetched)

  function Do(s: State, call: Call, limits: Limits): (State, Option<Resolution>) {
    match call
    case ReplaceCall(entries) => (Replace(s, entries), None)
    case MergeCall(changes) => (Merge(s, changes), None)
    case ResolveCall(reference, net) =>
      var (t, answer) := Resolve(s, reference, limits, net);
      (t, Some(answer))
  }

  function DoAll(s: State, calls: seq<Call>, limits: Limits): State {
    if calls == [] then s else Do(DoAll(s, calls[..|calls| - 1], limits), calls[|calls| - 1], limits).0
  }

  // The same calls on a store that only has descriptors.

  function MergeOnly(descriptors: map<string, Descriptor>, changes: seq<(string, Option<Descriptor>)>): map<string, Descriptor>
    decreases |changes|
  {
    if changes == [] then descriptors
    else
      var (id, entry) := changes[0];
      MergeOnly(if entry.Some? then descriptors[id := entry.value] else descriptors - {id}, changes[1..])
  }

  function Uncached(descriptors: map<string, Descriptor>, call: Call, limits: Limits)
    : (map<string, Descriptor>, Option<Resolution>)
  {
    match call
    case ReplaceCall(entries) => (entries, None)
    case MergeCall(changes) => (MergeOnly(descriptors, changes), None)
    case ResolveCall(reference, net) =>
      match ParseRef(reference)
      case None => (descriptors, Some(Refused(NotAReference)))
      case Some(id) =>
        (descriptors, Some(if id in descriptors then Answer(id, descriptors[id], None, limits, net) else Refused(Unknown(id))))
  }

  function UncachedAll(descriptors: map<string, Descriptor>, calls: seq<Call>, limits: Limits): map<string, Descriptor> {
    if calls == [] then descriptors
    else Uncached(UncachedAll(descriptors, calls[..|calls| - 1], limits), calls[|calls| - 1], limits).0
  }

  /** What an asset given out for a descriptor owes it, wherever it came from. */
  ghost predicate Honours(asset: Asset, id: string, d: Descriptor, limits: Limits) {
    && asset.id == id && asset.mediaType == d.mediaType && |asset.content| <= limits.maxBytes
    && (Pinned(d) ==> IsDigest(limits.sha256(asset.content), d.sha256.value))
  }

  /** What is cached honours its descriptor, and of a descriptor that holds its
      own content it is what loading that descriptor gives. */
  ghost predicate Coherent(s: State, limits: Limits) {
    forall i | 0 <= i < |s.cache| :: CoherentEntry(s.cache[i], limits)
  }

  ghost predicate CoherentEntry(e: Entry<string, CacheEntry>, limits: Limits) {
    && Honours(e.value.asset, e.key, e.value.version, limits)
    && (!e.value.version.source.Url? ==>
          forall net, cached :: Answer(e.key, e.value.version, cached, limits, net) == Resolved(e.value.asset))
  }

  ghost predicate Sound(s: State, limits: Limits) { Accounted(s, limits) && Coherent(s, limits) }

  lemma ForgetSound(s: State, id: string, limits: Limits)
    requires Sound(s, limits)
    ensures Sound(Forget(s, id), limits)
  {
    ForgetAccounted(s, id, limits);
    var i := Find(s.cache, id);
    assert forall j | 0 <= j < |Forget(s, id).cache| :: Forget(s, id).cache[j] == s.cache[if j < i then j else j + 1];
  }

  lemma CoherentPut(s: State, size: nat, e: Entry<string, CacheEntry>, limits: Limits)
    requires Sound(s, limits) && CoherentEntry(e, limits) && size <= limits.maxCacheBytes
    ensures var t := MakeRoom(s, size, limits.maxCacheBytes);
            && t.descriptors == s.descriptors
            && forall i | 0 <= i < |t.cache + [e]| :: CoherentEntry((t.cache + [e])[i], limits)
  {
    MakesRoom(s, size, limits.maxCacheBytes);
    var t := MakeRoom(s, size, limits.maxCacheBytes);
    var gone := |s.cache| - |t.cache|;
    forall i | 0 <= i < |t.cache + [e]|
      ensures CoherentEntry((t.cache + [e])[i], limits)
    {
      assert (t.cache + [e])[i] == if i < |t.cache| then s.cache[gone + i] else e;
    }
  }

  lemma RememberSound(s: State, id: string, e: CacheEntry, limits: Limits)
    requires Sound(s, limits) && CoherentEntry(Entry(id, e), limits)
    ensures Sound(Remember(s, id, e, limits), limits)
    ensures Remember(s, id, e, limits).descriptors == s.descriptors
  {
    ForgetSound(s, id, limits);
    RememberAccounted(s, id, e, limits);
    if |e.asset.content| <= limits.maxCacheBytes {
      CoherentPut(Forget(s, id), |e.asset.content|, Entry(id, e), limits);
    }
  }

  lemma TouchSound(s: State, id: string, limits: Limits)
    requires Sound(s, limits)
    ensures Sound(Touch(s, id), limits)
  {
    TouchAccounted(s, id, limits);
    var i := Find(s.cache, id);
    if i < |s.cache| {
      assert forall j | 0 <= j < |s.cache| - 1 :: Touch(s, id).cache[j] == s.cache[if j < i then j else j + 1];
    }
  }

  lemma {:induction false} WithoutSound(cache: Dict<string, CacheEntry>, gone: set<string>)
    ensures Total(Without(cache, gone)) <= Total(cache)
  {
    if cache != [] {
      WithoutSound(cache[1..], gone);
      if cache[0].key in gone {
        assert Without(cache, gone) == Without(cache[1..], gone);
      } else {
        assert Without(cache, gone)[1..] == Without(cache[1..], gone);
      }
    }
  }

  lemma ReplaceSound(s: State, entries: map<string, Descriptor>, limits: Limits)
    requires Sound(s, limits)
    ensures Sound(Replace(s, entries), limits)
  {
    var gone := Changed(s.descriptors, entries);
    FindWithout(s.cache, gone, "");
    WithoutSound(s.cache, gone);
  }

  lemma {:induction false} MergeSound(s: State, changes: seq<(string, Option<Descriptor>)>, limits: Limits)
    requires Sound(s, limits)
    ensures Sound(Merge(s, changes), limits) && Merge(s, changes).descriptors == MergeOnly(s.descriptors, changes)
    decreases |changes|
  {
    if changes != [] {
      var (id, entry) := changes[0];
      var t := SetDescriptor(s, id, entry);
      ForgetSound(t, id, limits);
      MergeSound(if DescriptorOf(s, id) != entry then Forget(t, id) else t, changes[1..], limits);
    }
  }

  /** What was loaded for a descriptor may be kept as its content. */
  lemma LoadedIsCoherent(id: string, d: Descriptor, cached: Option<CacheEntry>, limits: Limits, net: Fetched,
                         etag: Option<string>)
    requires Answer(id, d, cached, limits, net).Resolved?
    ensures CoherentEntry(Entry(id, CacheEntry(d, Answer(id, d, cached, limits, net).asset, etag)), limits)
  {
    if Pinned(d) {
      DigestsCompare(limits.sha256(Answer(id, d, cached, limits, net).asset.content), d.sha256.value);
    }
  }

  lemma CommitSound(s: State, id: string, d: Descriptor, asset: Asset, etag: Option<string>, limits: Limits)
    requires Sound(s, limits) && CoherentEntry(Entry(id, CacheEntry(d, asset, etag)), limits)
    ensures Sound(Commit(s, id, d, asset, etag, limits), limits)
    ensures Commit(s, id, d, asset, etag, limits).descriptors == s.descriptors
  {
    RememberSound(s, id, CacheEntry(d, asset, etag), limits);
  }

  lemma ResolveSound(s: State, reference: string, limits: Limits, net: Fetched)
    requires Sound(s, limits)
    ensures var (t, answer) := Resolve(s, reference, limits, net);
            Sound(t, limits) && t.descriptors == s.descriptors
  {
    if ParseRef(reference).Some? {
      var id := ParseRef(reference).value;
      if id in s.descriptors {
        TouchSound(s, id, limits);
        var d := s.descriptors[id];
        var cached := CachedFor(s, id, d);
        var answer := Answer(id, d, cached, limits, net);
        if answer.Resolved? {
          LoadedIsCoherent(id, d, cached, limits, net, EtagOf(d, cached, limits, net));
          CommitSound(s, id, d, answer.asset, EtagOf(d, cached, limits, net), limits);
        }
      }
    }
  }

  /** The answer a reference is owed. An asset that carries its content is
      answered with that; one with a URL with what was fetched for this version
      of it before, if it is pinned, else with what is fetched. */
  ghost predicate Answers(s: State, reference: string, limits: Limits, net: Fetched, answer: Resolution) {
    match ParseRef(reference)
    case None => answer == Refused(NotAReference)
    case Some(id) =>
      if id !in s.descriptors then answer == Refused(Unknown(id))
      else
        var d, held := s.descriptors[id], Get(s.cache, id);
        var cached := if held.Some? && held.value.version == d then held else None;
        if !d.source.Url? then AsCarried(id, d, limits, answer)
        else if cached.Some? && Pinned(d) then
          answer == Resolved(cached.value.asset) && Honours(answer.asset, id, d, limits)
        else AsFetched(id, d, cached, limits, net, answer)
  }

  lemma HitIsOwed(s: State, id: string, limits: Limits)
    requires Sound(s, limits) && IsHit(s, id)
    ensures var d, asset := s.descriptors[id], Get(s.cache, id).value.asset;
            && Honours(asset, id, d, limits)
            && if d.source.Url? then Pinned(d) else AsCarried(id, d, limits, Resolved(asset))
  {
    var e := s.cache[Find(s.cache, id)];
    assert CoherentEntry(e, limits);
    if !e.value.version.source.Url? {
      AnswerIsOwed(id, e.value.version, None, limits, NotModified);
    }
  }

  /** A resolve answers what it owes. */
  lemma ResolveAnswers(s: State, reference: string, limits: Limits, net: Fetched)
    requires Sound(s, limits)
    ensures Answers(s, reference, limits, net, Resolve(s, reference, limits, net).1)
  {
    if ParseRef(reference).Some? {
      var id := ParseRef(reference).value;
      if IsHit(s, id) {
        HitIsOwed(s, id, limits);
      } else if id in s.descriptors {
        AnswerIsOwed(id, s.descriptors[id], CachedFor(s, id, s.descriptors[id]), limits, net);
      }
    }
  }

  lemma RememberedLast(s: State, id: string, e: CacheEntry, limits: Limits)
    requires Accounted(s, limits) && |e.asset.content| <= limits.maxCacheBytes
    ensures Get(Remember(s, id, e, limits).cache, id) == Some(e)
  {
    RememberEvicts(s, id, e, limits);
    RememberAccounted(s, id, e, limits);
    var cache := Remember(s, id, e, limits).cache;
    assert cache[|cache| - 1] == Entry(id, e);
    FindHere(cache, |cache| - 1);
  }

  /** What was loaded and is not larger than the cache is cached for this version
      of the descriptor, with the tag to ask again by: the one that came with
      the content, or that of what turned out not to be modified. */
  lemma LoadedIsCached(s: State, reference: string, id: string, limits: Limits, net: Fetched)
    requires Accounted(s, limits) && ParseRef(reference) == Some(id) && id in s.descriptors && !IsHit(s, id)
    requires var answer := Resolve(s, reference, limits, net).1;
             answer.Resolved? && |answer.asset.content| <= limits.maxCacheBytes
    ensures var (t, answer) := Resolve(s, reference, limits, net);
            var d, kept := s.descriptors[id], Get(t.cache, id);
            && kept.Some? && kept.value.version == d && kept.value.asset == answer.asset
            && kept.value.etag ==
               if !d.source.Url? then None
               else if net.Content? then net.etag
               else if Get(s.cache, id).Some? then Get(s.cache, id).value.etag else None
  {
    var d := s.descriptors[id];
    var cached := CachedFor(s, id, d);
    var asset := Answer(id, d, cached, limits, net).asset;
    RememberedLast(s, id, CacheEntry(d, asset, EtagOf(d, cached, limits, net)), limits);
  }

  /** The answer to a reference to an asset with a URL: refused, or honouring the
      descriptor. */
  ghost predicate AnswersAUrl(descriptors: map<string, Descriptor>, call: Call, answer: Option<Resolution>, limits: Limits) {
    && call.ResolveCall? && ParseRef(call.reference).Some? && ParseRef(call.reference).value in descriptors
    && var id := ParseRef(call.reference).value;
    && descriptors[id].source.Url? && answer.Some?
    && (answer.value.Resolved? ==> Honours(answer.value.asset, id, descriptors[id], limits))
  }

  /** A call on the cached store does what it does on one without a cache,
      except that an asset with a URL may be answered from what was fetched
      before, which honours the descriptor there is now. */
  lemma DoesAsUncached(s: State, call: Call, limits: Limits)
    requires Sound(s, limits)
    ensures var (t, answer) := Do(s, call, limits);
            var (descriptors, plain) := Uncached(s.descriptors, call, limits);
            && Sound(t, limits) && t.descriptors == descriptors
            && (answer == plain || AnswersAUrl(s.descriptors, call, answer, limits))
            && (call.ResolveCall? ==> answer.Some? && Answers(s, call.reference, limits, call.net, answer.value))
  {
    match call
    case ReplaceCall(entries) => ReplaceSound(s, entries, limits);
    case MergeCall(changes) => MergeSound(s, changes, limits);
    case ResolveCall(reference, net) =>
      ResolveSound(s, reference, limits, net);
      ResolveAnswers(s, reference, limits, net);
      if ParseRef(reference).Some? {
        var id := ParseRef(reference).value;
        if IsHit(s, id) {
          assert CoherentEntry(s.cache[Find(s.cache, id)], limits);
        }
      }
  }

  /** Cache transparency: after any run of calls, whatever was evicted, the next
      call answers as a store with no cache would, content and refusal alike;
      only an asset with a URL may be answered with content fetched before, within
      the limit and of the digest its descriptor is pinned to. */
  lemma {:induction false} CacheIsTransparent(calls: seq<Call>, limits: Limits)
    ensures Sound(DoAll(EMPTY, calls, limits), limits)
    ensures DoAll(EMPTY, calls, limits).descriptors == UncachedAll(map[], calls, limits)
    ensures calls != [] ==>
              var n := |calls| - 1;
              var before, call := UncachedAll(map[], calls[..n], limits), calls[n];
              var store := DoAll(EMPTY, calls[..n], limits);
              var answer := Do(store, call, limits).1;
              && (answer == Uncached(before, call, limits).1 || AnswersAUrl(before, call, answer, limits))
              && (call.ResolveCall? ==> answer.Some? && Answers(store, call.reference, limits, call.net, answer.value))
  {
    if calls != [] {
      var n := |calls| - 1;
      CacheIsTransparent(calls[..n], limits);
      DoesAsUncached(DoAll(EMPTY, calls[..n], limits), calls[n], limits);
    }
  }

  // ── Order of last use ─────────────────────────────────────────────────────

  /** How many uses had been made when the id was last used, 0 for never. */
  function LastUse(uses: seq<string>, id: string): (n: nat)
    ensures n <= |uses|
    ensures n > 0 ==> uses[n - 1] == id
  {
    if uses == [] then 0
    else if uses[|uses| - 1] == id then |uses|
    else LastUse(uses[..|uses| - 1], id)
  }

  /** The use a call makes: of the asset it was answered from the cache with, or
      put into the cache. */
  function UseOf(s: State, call: Call, limits: Limits): seq<string> {
    if !call.ResolveCall? || ParseRef(call.reference).None? then []
    else
      var id := ParseRef(call.reference).value;
      var (t, answer) := Do(s, call, limits);
      if answer.value.Resolved? && Has(t.cache, id) then [id] else []
  }

  function Uses(calls: seq<Call>, limits: Limits): seq<string> {
    if calls == [] then []
    else
      var n := |calls| - 1;
      Uses(calls[..n], limits) + UseOf(DoAll(EMPTY, calls[..n], limits), calls[n], limits)
  }

  ghost predicate InUseOrder(cache: Dict<string, CacheEntry>, uses: seq<string>) {
    && (forall i | 0 <= i < |cache| :: LastUse(uses, cache[i].key) > 0)
    && (forall i, j | 0 <= i < j < |cache| :: LastUse(uses, cache[i].key) < LastUse(uses, cache[j].key))
  }

  lemma LastUseAfter(uses: seq<string>, id: string, other: string)
    ensures LastUse(uses + [id], other) == if other == id then |uses| + 1 else LastUse(uses, other)
  {
    assert (uses + [id])[..|uses|] == uses;
  }

  lemma PartsInOrder(cache: Dict<string, CacheEntry>, i: nat, left: Dict<string, CacheEntry>, uses: seq<string>)
    requires InUseOrder(cache, uses) && i < |cache| && |left| == |cache| - 1
    requires forall j | 0 <= j < |left| :: left[j] == cache[if j < i then j else j + 1]
    ensures InUseOrder(left, uses)
  {
  }

  lemma RemoveInOrder(cache: Dict<string, CacheEntry>, id: string, uses: seq<string>)
    requires InUseOrder(cache, uses)
    ensures InUseOrder(Remove(cache, id), uses)
  {
    var i := Find(cache, id);
    var left := Remove(cache, id);
    if i < |cache| {
      PartsInOrder(cache, i, left, uses);
    }
  }

  lemma FrontGoneInOrder(cache: Dict<string, CacheEntry>, gone: nat, uses: seq<string>)
    requires InUseOrder(cache, uses) && gone <= |cache|
    ensures InUseOrder(cache[gone..], uses)
  {
    assert forall j | 0 <= j < |cache[gone..]| :: cache[gone..][j] == cache[gone + j];
  }

  lemma {:induction false} WithoutIn(cache: Dict<string, CacheEntry>, gone: set<string>)
    ensures forall i | 0 <= i < |Without(cache, gone)| :: Without(cache, gone)[i] in cache
  {
    if cache != [] {
      WithoutIn(cache[1..], gone);
    }
  }

  lemma {:induction false} WithoutInOrder(cache: Dict<string, CacheEntry>, gone: set<string>, uses: seq<string>)
    requires InUseOrder(cache, uses)
    ensures InUseOrder(Without(cache, gone), uses)
  {
    if cache != [] {
      var rest := Without(cache[1..], gone);
      FrontGoneInOrder(cache, 1, uses);
      WithoutInOrder(cache[1..], gone, uses);
      if cache[0].key in gone {
        assert Without(cache, gone) == rest;
      } else {
        WithoutIn(cache[1..], gone);
        FirstInOrder(cache[0], rest, cache, uses);
      }
    }
  }

  lemma FirstInOrder(e: Entry<string, CacheEntry>, rest: Dict<string, CacheEntry>, cache: Dict<string, CacheEntry>,
                     uses: seq<string>)
    requires InUseOrder(cache, uses) && cache != [] && e == cache[0]
    requires InUseOrder(rest, uses) && forall i | 0 <= i < |rest| :: rest[i] in cache[1..]
    ensures InUseOrder([e] + rest, uses)
  {
    forall i | 0 <= i < |rest|
      ensures LastUse(uses, e.key) < LastUse(uses, rest[i].key)
    {
      var j :| 0 <= j < |cache[1..]| && cache[1..][j] == rest[i];
      assert cache[j + 1] == rest[i];
    }
  }

  /** Putting a used entry last keeps the order. */
  lemma UseLast(others: Dict<string, CacheEntry>, e: Entry<string, CacheEntry>, uses: seq<string>)
    requires InUseOrder(others, uses) && forall i | 0 <= i < |others| :: others[i].key != e.key
    ensures InUseOrder(others + [e], uses + [e.key])
  {
    var cache := others + [e];
    forall i | 0 <= i < |cache|
      ensures LastUse(uses + [e.key], cache[i].key) == if i < |others| then LastUse(uses, cache[i].key) else |uses| + 1
    {
      LastUseAfter(uses, e.key, cache[i].key);
    }
  }

  lemma TouchInOrder(s: State, id: string, uses: seq<string>)
    requires Unique(s.cache) && InUseOrder(s.cache, uses) && Has(s.cache, id)
    ensures InUseOrder(Touch(s, id).cache, uses + [id]) && Has(Touch(s, id).cache, id)
  {
    RemoveInOrder(s.cache, id, uses);
    GetRemove(s.cache, id, id);
    UseLast(Remove(s.cache, id), s.cache[Find(s.cache, id)], uses);
    assert Touch(s, id).cache[|s.cache| - 1].key == id;
  }

  lemma EvictedInOrder(others: Dict<string, CacheEntry>, gone: nat, e: Entry<string, CacheEntry>, uses: seq<string>)
    requires InUseOrder(others, uses) && gone <= |others|
    requires forall i | 0 <= i < |others| :: others[i].key != e.key
    ensures InUseOrder(others[gone..] + [e], uses + [e.key]) && Has(others[gone..] + [e], e.key)
  {
    FrontGoneInOrder(others, gone, uses);
    assert forall i | 0 <= i < |others[gone..]| :: others[gone..][i] == others[gone + i];
    UseLast(others[gone..], e, uses);
    assert (others[gone..] + [e])[|others| - gone] == e;
  }

  lemma RemovedIsGone(cache: Dict<string, CacheEntry>, id: string)
    requires Unique(cache)
    ensures !Has(Remove(cache, id), id) && forall i | 0 <= i < |Remove(cache, id)| :: Remove(cache, id)[i].key != id
  {
    GetRemove(cache, id, id);
  }

  lemma RememberInOrder(s: State, id: string, e: CacheEntry, limits: Limits, uses: seq<string>)
    requires Accounted(s, limits) && InUseOrder(s.cache, uses)
    ensures var t := Remember(s, id, e, limits);
            InUseOrder(t.cache, if Has(t.cache, id) then uses + [id] else uses)
  {
    var others, t := Remove(s.cache, id), Remember(s, id, e, limits);
    RememberEvicts(s, id, e, limits);
    RemoveInOrder(s.cache, id, uses);
    RemovedIsGone(s.cache, id);
    KeptInOrder(others, t.cache, Entry(id, e), |e.asset.content| <= limits.maxCacheBytes, uses);
  }

  lemma KeptInOrder(others: Dict<string, CacheEntry>, cache: Dict<string, CacheEntry>, e: Entry<string, CacheEntry>,
                    fits: bool, uses: seq<string>)
    requires InUseOrder(others, uses) && !Has(others, e.key) && forall i | 0 <= i < |others| :: others[i].key != e.key
    requires if fits then 1 <= |cache| <= |others| + 1 && cache == others[|others| + 1 - |cache|..] + [e] else cache == others
    ensures InUseOrder(cache, if Has(cache, e.key) then uses + [e.key] else uses)
  {
    if fits {
      EvictedInOrder(others, |others| + 1 - |cache|, e, uses);
    }
  }

  lemma {:induction false} MergeInOrder(s: State, changes: seq<(string, Option<Descriptor>)>, uses: seq<string>)
    requires InUseOrder(s.cache, uses)
    ensures InUseOrder(Merge(s, changes).cache, uses)
    decreases |changes|
  {
    if changes != [] {
      var (id, entry) := changes[0];
      RemoveInOrder(s.cache, id, uses);
      var t := SetDescriptor(s, id, entry);
      MergeInOrder(if DescriptorOf(s, id) != entry then Forget(t, id) else t, changes[1..], uses);
    }
  }

  lemma CallInOrder(s: State, call: Call, limits: Limits, uses: seq<string>)
    requires Accounted(s, limits) && InUseOrder(s.cache, uses)
    ensures InUseOrder(Do(s, call, limits).0.cache, uses + UseOf(s, call, limits))
  {
    assert uses + [] == uses;
    match call
    case ReplaceCall(entries) => WithoutInOrder(s.cache, Changed(s.descriptors, entries), uses);
    case MergeCall(changes) => MergeInOrder(s, changes, uses);
    case ResolveCall(reference, net) =>
      if ParseRef(reference).Some? && ParseRef(reference).value in s.descriptors {
        var id := ParseRef(reference).value;
        if IsHit(s, id) {
          TouchInOrder(s, id, uses);
        } else {
          ResolveInOrder(s, reference, id, limits, net, uses);
        }
      }
  }

  lemma ResolveInOrder(s: State, reference: string, id: string, limits: Limits, net: Fetched, uses: seq<string>)
    requires Accounted(s, limits) && InUseOrder(s.cache, uses)
    requires ParseRef(reference) == Some(id) && id in s.descriptors && !IsHit(s, id)
    ensures var (t, answer) := Resolve(s, reference, limits, net);
            InUseOrder(t.cache, if answer.Resolved? && Has(t.cache, id) then uses + [id] else uses)
  {
    var d := s.descriptors[id];
    var cached := CachedFor(s, id, d);
    var answer := Answer(id, d, cached, limits, net);
    if answer.Resolved? {
      RememberInOrder(s, id, CacheEntry(d, answer.asset, EtagOf(d, cached, limits, net)), limits, uses);
    }
  }

  /** After any run of calls the cache is in the order of last use, least
      recently used first, and its counter is the sum of what it holds, within
      the limit. */
  lemma {:induction false} CacheIsInUseOrder(calls: seq<Call>, limits: Limits)
    ensures Accounted(DoAll(EMPTY, calls, limits), limits)
    ensures InUseOrder(DoAll(EMPTY, calls, limits).cache, Uses(calls, limits))
  {
    if calls != [] {
      var n := |calls| - 1;
      CacheIsTransparent(calls[..n], limits);
      DoesAsUncached(DoAll(EMPTY, calls[..n], limits), calls[n], limits);
      CacheIsInUseOrder(calls[..n], limits);
      CallInOrder(DoAll(EMPTY, calls[..n], limits), calls[n], limits, Uses(calls[..n], limits));
    }
  }

  // ── Calls of several threads ──────────────────────────────────────────────

  /** What an edit still has to do outside its first locked section: forget what
      is cached of an id, or, for `replace`, first compare the version it found
      there with the one there now. */
  datatype Edit = Forgetting(id: string) | Comparing(id: string, previous: Option<Descriptor>)

  /** A resolve between its sections: it read `d`, and may have loaded it. */
  datatype Flight = Flight(id: string, d: Descriptor, cached: Option<CacheEntry>, loaded: Option<(Asset, Option<string>)>)

  datatype Machine = Machine(store: State, edits: seq<Edit>, flights: seq<Flight>)

  const IDLE := Machine(EMPTY, [], [])

  /** One section of one thread. `touched` is the order in which `replace` goes
      through the ids it held or was given. A hit moves its entry in the step
      that reads it. */
  datatype Step =
    | MergeSet(id: string, entry: Option<Descriptor>)
    | ReplaceSet(entries: map<string, Descriptor>, touched: seq<string>)
    | Compare(edit: nat)
    | ForgetNow(edit: nat)
    | Read(reference: string)
    | LoadNow(flight: nat, net: Fetched)
    | CommitNow(flight: nat)

  predicate Enabled(m: Machine, step: Step) {
    match step
    case MergeSet(_, _) => true
    case ReplaceSet(entries, touched) =>
      forall id | id in m.store.descriptors.Keys + entries.Keys :: id in touched
    case Compare(i) => i < |m.edits| && m.edits[i].Comparing?
    case ForgetNow(i) => i < |m.edits| && m.edits[i].Forgetting?
    case Read(_) => true
    case LoadNow(i, _) => i < |m.flights| && m.flights[i].loaded.None?
    case CommitNow(i) => i < |m.flights| && m.flights[i].loaded.Some?
  }

  function Drop<T>(s: seq<T>, i: nat): seq<T>
    requires i < |s|
  {
    s[..i] + s[i + 1..]
  }

  function Take(m: Machine, step: Step, limits: Limits): (Machine, Option<Resolution>)
    requires Enabled(m, step)
  {
    var s := m.store;
    match step
    case MergeSet(id, entry) =>
      var edits := if DescriptorOf(s, id) != entry then m.edits + [Forgetting(id)] else m.edits;
      (m.(store := SetDescriptor(s, id, entry), edits := edits), None)
    case ReplaceSet(entries, touched) =>
      var compares := seq(|touched|, i requires 0 <= i < |touched| => Comparing(touched[i], DescriptorOf(s, touched[i])));
      (m.(store := s.(descriptors := entries), edits := m.edits + compares), None)
    case Compare(i) =>
      var e := m.edits[i];
      (m.(edits := if e.previous != DescriptorOf(s, e.id) then m.edits[i := Forgetting(e.id)] else Drop(m.edits, i)), None)
    case ForgetNow(i) => (m.(store := Forget(s, m.edits[i].id), edits := Drop(m.edits, i)), None)
    case Read(reference) =>
      (match ParseRef(reference)
       case None => (m, Some(Refused(NotAReference)))
       case Some(id) =>
         if id !in s.descriptors then (m, Some(Refused(Unknown(id))))
         else if IsHit(s, id) then (m.(store := Touch(s, id)), Some(Resolved(Get(s.cache, id).value.asset)))
         else
           var d := s.descriptors[id];
           (m.(flights := m.flights + [Flight(id, d, CachedFor(s, id, d), None)]), None))
    case LoadNow(i, net) =>
      var f := m.flights[i];
      var answer := Answer(f.id, f.d, f.cached, limits, net);
      if answer.Refused? then (m.(flights := Drop(m.flights, i)), Some(answer))
      else
        var loaded := Some((answer.asset, EtagOf(f.d, f.cached, limits, net)));
        (m.(flights := m.flights[i := f.(loaded := loaded)]), None)
    case CommitNow(i) =>
      var f := m.flights[i];
      var (asset, etag) := f.loaded.value;
      (m.(store := Commit(s, f.id, f.d, asset, etag, limits), flights := Drop(m.flights, i)), Some(Resolved(asset)))
  }

  /** The edit will still forget what is cached of its id, as things stand. */
  predicate WillForget(m: Machine, e: Edit, id: string) {
    e.id == id && (e.Forgetting? || e.previous != DescriptorOf(m.store, id))
  }

  ghost predicate Covered(m: Machine, id: string) { exists i | 0 <= i < |m.edits| :: WillForget(m, m.edits[i], id) }

  predicate IsStale(m: Machine, id: string) {
    Has(m.store.cache, id) && DescriptorOf(m.store, id) != Some(Get(m.store.cache, id).value.version)
  }

  ghost predicate LoadedRight(f: Flight, limits: Limits) {
    f.loaded.Some? ==> forall etag :: CoherentEntry(Entry(f.id, CacheEntry(f.d, f.loaded.value.0, etag)), limits)
  }

  /** What every section keeps. */
  ghost predicate Inv(m: Machine, limits: Limits) {
    && Sound(m.store, limits)
    && (forall id | IsStale(m, id) :: Covered(m, id))
    && (forall i | 0 <= i < |m.flights| :: LoadedRight(m.flights[i], limits))
  }

  lemma StillCovered(m: Machine, t: Machine, id: string, i: nat, j: nat)
    requires i < |m.edits| && j < |t.edits| && WillForget(m, m.edits[i], id)
    requires t.edits[j] == m.edits[i] && DescriptorOf(t.store, id) == DescriptorOf(m.store, id)
    ensures Covered(t, id)
  {
    assert WillForget(t, t.edits[j], id);
  }

  lemma MergeSetInv(m: Machine, id: string, entry: Option<Descriptor>, limits: Limits)
    requires Inv(m, limits)
    ensures Inv(Take(m, MergeSet(id, entry), limits).0, limits)
  {
    var t := Take(m, MergeSet(id, entry), limits).0;
    forall k | IsStale(t, k)
      ensures Covered(t, k)
    {
      if k == id && DescriptorOf(m.store, id) != entry {
        assert WillForget(t, t.edits[|m.edits|], id);
      } else {
        assert IsStale(m, k);
        var i :| 0 <= i < |m.edits| && WillForget(m, m.edits[i], k);
        StillCovered(m, t, k, i, i);
      }
    }
  }

  lemma ReplaceSetInv(m: Machine, entries: map<string, Descriptor>, touched: seq<string>, limits: Limits)
    requires Inv(m, limits) && Enabled(m, ReplaceSet(entries, touched))
    ensures Inv(Take(m, ReplaceSet(entries, touched), limits).0, limits)
  {
    var t := Take(m, ReplaceSet(entries, touched), limits).0;
    forall k | IsStale(t, k)
      ensures Covered(t, k)
    {
      if DescriptorOf(m.store, k) != DescriptorOf(t.store, k) {
        assert k in m.store.descriptors.Keys + entries.Keys;
        var n :| 0 <= n < |touched| && touched[n] == k;
        assert WillForget(t, t.edits[|m.edits| + n], k);
      } else {
        assert IsStale(m, k);
        var i :| 0 <= i < |m.edits| && WillForget(m, m.edits[i], k);
        StillCovered(m, t, k, i, i);
      }
    }
  }

  lemma EditStepCovers(m: Machine, step: Step, limits: Limits, k: string)
    requires Accounted(m.store, limits) && Enabled(m, step) && (step.Compare? || step.ForgetNow?)
    requires IsStale(m, k) ==> Covered(m, k)
    ensures var t := Take(m, step, limits).0; IsStale(t, k) ==> Covered(t, k)
  {
    var t, n := Take(m, step, limits).0, step.edit;
    if step.ForgetNow? {
      ForgetAccounted(m.store, m.edits[n].id, limits);
    }
    if IsStale(t, k) {
      assert IsStale(m, k);
      var i :| 0 <= i < |m.edits| && WillForget(m, m.edits[i], k);
      if i != n {
        StillCovered(m, t, k, i, if |t.edits| == |m.edits| || i < n then i else i - 1);
      } else {
        assert WillForget(t, t.edits[n], k);
      }
    }
  }

  lemma EditStepInv(m: Machine, step: Step, limits: Limits)
    requires Inv(m, limits) && Enabled(m, step) && (step.Compare? || step.ForgetNow?)
    ensures Inv(Take(m, step, limits).0, limits)
  {
    if step.ForgetNow? {
      ForgetSound(m.store, m.edits[step.edit].id, limits);
    }
    forall k | IsStale(Take(m, step, limits).0, k)
      ensures Covered(Take(m, step, limits).0, k)
    {
      EditStepCovers(m, step, limits, k);
    }
  }

  /** A step that leaves descriptors and edits alone and caches nothing but
      current versions keeps stale entries covered. */
  lemma NothingNewStale(m: Machine, t: Machine)
    requires forall id | IsStale(m, id) :: Covered(m, id)
    requires t.edits == m.edits && t.store.descriptors == m.store.descriptors
    requires forall id | Has(t.store.cache, id) ::
               Get(t.store.cache, id) == Get(m.store.cache, id) || DescriptorOf(t.store, id) == Some(Get(t.store.cache, id).value.version)
    ensures forall id | IsStale(t, id) :: Covered(t, id)
  {
    forall id | IsStale(t, id)
      ensures Covered(t, id)
    {
      assert IsStale(m, id);
      var i :| 0 <= i < |m.edits| && WillForget(m, m.edits[i], id);
      StillCovered(m, t, id, i, i);
    }
  }

  lemma CommitCaches(s: State, id: string, e: CacheEntry, limits: Limits, k: string)
    requires Accounted(s, limits) && Has(Remember(s, id, e, limits).cache, k)
    ensures Get(Remember(s, id, e, limits).cache, k) == if k == id then Some(e) else Get(s.cache, k)
  {
    RememberEvicts(s, id, e, limits);
    RememberAccounted(s, id, e, limits);
    GetRemove(s.cache, id, k);
    var others, t := Remove(s.cache, id), Remember(s, id, e, limits);
    var i := Find(t.cache, k);
    if |e.asset.content| <= limits.maxCacheBytes && i < |t.cache| - 1 {
      var gone := |others| + 1 - |t.cache|;
      assert t.cache[i] == others[gone + i];
      FindHere(others, gone + i);
      GetRemove(s.cache, id, others[gone + i].key);
    }
  }

  lemma TouchKeeps(s: State, id: string, k: string)
    requires Unique(s.cache)
    ensures Get(Touch(s, id).cache, k) == Get(s.cache, k)
  {
    if Has(s.cache, id) {
      var e := s.cache[Find(s.cache, id)];
      GetRemove(s.cache, id, k);
      GetRemove(s.cache, id, id);
      GetPut(Remove(s.cache, id), id, e.value, k);
    }
  }

  lemma FlightStepInv(m: Machine, step: Step, limits: Limits)
    requires Inv(m, limits) && Enabled(m, step) && (step.Read? || step.LoadNow? || step.CommitNow?)
    ensures Inv(Take(m, step, limits).0, limits)
  {
    var t := Take(m, step, limits).0;
    match step
    case Read(reference) =>
      if ParseRef(reference).Some? && IsHit(m.store, ParseRef(reference).value) {
        var id := ParseRef(reference).value;
        TouchSound(m.store, id, limits);
        forall k ensures Get(t.store.cache, k) == Get(m.store.cache, k) { TouchKeeps(m.store, id, k); }
      }
      NothingNewStale(m, t);
    case LoadNow(i, net) =>
      var f := m.flights[i];
      if Answer(f.id, f.d, f.cached, limits, net).Resolved? {
        forall etag { LoadedIsCoherent(f.id, f.d, f.cached, limits, net, etag); }
      }
      NothingNewStale(m, t);
    case CommitNow(i) =>
      var f := m.flights[i];
      var (asset, etag) := f.loaded.value;
      CommitSound(m.store, f.id, f.d, asset, etag, limits);
      forall k | Has(t.store.cache, k)
        ensures Get(t.store.cache, k) == Get(m.store.cache, k) || DescriptorOf(t.store, k) == Some(Get(t.store.cache, k).value.version)
      {
        if DescriptorOf(m.store, f.id) == Some(f.d) {
          CommitCaches(m.store, f.id, CacheEntry(f.d, asset, etag), limits, k);
        }
      }
      NothingNewStale(m, t);
  }

  lemma StepInv(m: Machine, step: Step, limits: Limits)
    requires Inv(m, limits) && Enabled(m, step)
    ensures Inv(Take(m, step, limits).0, limits)
  {
    match step
    case MergeSet(id, entry) => MergeSetInv(m, id, entry, limits);
    case ReplaceSet(entries, touched) => ReplaceSetInv(m, entries, touched, limits);
    case Compare(_) => EditStepInv(m, step, limits);
    case ForgetNow(_) => EditStepInv(m, step, limits);
    case _ => FlightStepInv(m, step, limits);
  }

  /** The machine after a run of sections, those that cannot be taken skipped. */
  function RunAll(steps: seq<Step>, limits: Limits): Machine {
    if steps == [] then IDLE
    else
      var m, step := RunAll(steps[..|steps| - 1], limits), steps[|steps| - 1];
      if Enabled(m, step) then Take(m, step, limits).0 else m
  }

  lemma {:induction false} RunInv(steps: seq<Step>, limits: Limits)
    ensures Inv(RunAll(steps, limits), limits)
  {
    if steps != [] {
      var n := |steps| - 1;
      RunInv(steps[..n], limits);
      if Enabled(RunAll(steps[..n], limits), steps[n]) {
        StepInv(RunAll(steps[..n], limits), steps[n], limits);
      }
    }
  }

  /** Over any interleaving of edits and resolves with loads in flight: content
      of an older version is cached only while an edit to that id has yet to
      forget it, and never once all edits are done. */
  lemma StaleOnlyWhileForgetting(steps: seq<Step>, limits: Limits, id: string)
    ensures var m := RunAll(steps, limits);
            && (IsStale(m, id) ==> exists i | 0 <= i < |m.edits| :: WillForget(m, m.edits[i], id))
            && (m.edits == [] ==> !IsStale(m, id))
  {
    RunInv(steps, limits);
  }

  /** Whatever interleaves: a hit answers what the descriptor the same step read
      owes, and what was loaded in flight is what the descriptor its first
      section read owes. Where the descriptor carries its content, that is it. */
  lemma AnswersAreRight(steps: seq<Step>, step: Step, limits: Limits)
    requires Enabled(RunAll(steps, limits), step) && Take(RunAll(steps, limits), step, limits).1.Some?
    ensures var m := RunAll(steps, limits);
            var answer := Take(m, step, limits).1.value;
            match step
            case Read(reference) =>
              (match ParseRef(reference)
               case None => answer == Refused(NotAReference)
               case Some(id) =>
                 if id !in m.store.descriptors then answer == Refused(Unknown(id))
                 else
                   var d := m.store.descriptors[id];
                   && answer.Resolved? && Honours(answer.asset, id, d, limits)
                   && if d.source.Url? then Pinned(d) else AsCarried(id, d, limits, answer))
            case CommitNow(i) =>
              var f := m.flights[i];
              && answer.Resolved? && Honours(answer.asset, f.id, f.d, limits)
              && (!f.d.source.Url? ==> AsCarried(f.id, f.d, limits, answer))
            case LoadNow(i, net) =>
              var f := m.flights[i];
              && answer.Refused?
              && if f.d.source.Url? then AsFetched(f.id, f.d, f.cached, limits, net, answer)
                 else AsCarried(f.id, f.d, limits, answer)
            case _ => false
  {
    RunInv(steps, limits);
    var m := RunAll(steps, limits);
    match step
    case Read(reference) =>
      if ParseRef(reference).Some? && IsHit(m.store, ParseRef(reference).value) {
        HitIsOwed(m.store, ParseRef(reference).value, limits);
      }
    case CommitNow(i) =>
      var f := m.flights[i];
      assert CoherentEntry(Entry(f.id, CacheEntry(f.d, f.loaded.value.0, f.loaded.value.1)), limits);
      if !f.d.source.Url? {
        AnswerIsOwed(f.id, f.d, None, limits, NotModified);
      }
    case LoadNow(i, net) =>
      var f := m.flights[i];
      AnswerIsOwed(f.id, f.d, f.cached, limits, net);
    case _ =>
  }
}
