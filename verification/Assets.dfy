/** The asset store: descriptors that may be edited, and a byte-bounded cache of
    the content they resolve to. What each locked section does, as functions of
    the state, and the store itself. */
module Assets {
  import opened Strings
  import opened OrderedDict
  import Base64

  datatype Source = Text(text: string) | Encoded(base64: string) | Url(url: string)

  /** A descriptor; `other` stands for its remaining fields. */
  datatype Descriptor = Descriptor(mediaType: string, source: Source, sha256: Option<string>, other: string)

  datatype Asset = Asset(id: string, mediaType: string, content: seq<Byte>)

  /** The version of a descriptor is its JSON text with sorted keys, which tells
      any two descriptors apart: the descriptor itself does as well. */
  datatype CacheEntry = CacheEntry(version: Descriptor, asset: Asset, etag: Option<string>)

  datatype Problem =
    | NotAReference
    | Unknown(id: string)
    | NotBase64
    | TooLarge(limit: nat)
    | Mismatch(actual: string)
    | Unreadable(reason: string)

  datatype Resolution = Resolved(asset: Asset) | Refused(problem: Problem)

  /** What the network gave when a URL was fetched. */
  datatype Fetched = Content(bytes: seq<Byte>, etag: Option<string>) | NotModified | Failed(reason: string)

  /** `sha256` gives a content's digest in lower-case hexadecimal. */
  datatype Limits = Limits(maxBytes: nat, maxCacheBytes: nat, sha256: seq<Byte> -> string)

  datatype State = State(descriptors: map<string, Descriptor>, cache: Dict<string, CacheEntry>, cachedBytes: int)

  const EMPTY := State(map[], [], 0)

  // ── References ────────────────────────────────────────────────────────────

  const SCHEME := "hkp-asset://"

  predicate IsIdChar(c: char) {
    'A' <= c <= 'Z' || 'a' <= c <= 'z' || '0' <= c <= '9' || c in "_.-"
  }

  predicate IsId(s: string) { s != "" && forall i | 0 <= i < |s| :: IsIdChar(s[i]) }

  /** The id after the scheme. The source's pattern ends in `$`, which tolerates
      one line feed at the end of the text: the second branch. */
  function ParseRef(reference: string): Option<string> {
    if !(SCHEME <= reference) then None
    else
      var id := reference[|SCHEME|..];
      if IsId(id) then Some(id)
      else if id != "" && id[|id| - 1] == '\n' && IsId(id[..|id| - 1]) then Some(id[..|id| - 1])
      else None
  }

  /** Letters and figures, "_", "." and "-". */
  ghost predicate IsNameChar(c: char) {
    c in Base64.UPPER || c in Base64.LOWER || c in Base64.FIGURES || c == '_' || c == '.' || c == '-'
  }

  ghost predicate Names(id: string) { id != "" && forall i | 0 <= i < |id| :: IsNameChar(id[i]) }

  lemma IdCharsAre(c: char)
    ensures IsIdChar(c) <==> IsNameChar(c)
  {
    Base64.AlphabetRises();
    Base64.RisesHas(Base64.UPPER, 'A', 26, c);
    Base64.RisesHas(Base64.LOWER, 'a', 26, c);
    Base64.RisesHas(Base64.FIGURES, '0', 10, c);
  }

  lemma IdsName(id: string)
    ensures IsId(id) <==> Names(id)
  {
    forall i | 0 <= i < |id|
      ensures IsIdChar(id[i]) <==> IsNameChar(id[i])
    {
      IdCharsAre(id[i]);
    }
  }

  /** An id is read off exactly from these two texts. */
  lemma ReferencesRead(reference: string, id: string)
    ensures ParseRef(reference) == Some(id) <==>
      Names(id) && (reference == "hkp-asset://" + id || reference == "hkp-asset://" + id + "\n")
  {
    IdsName(id);
    if SCHEME <= reference {
      var rest := reference[|SCHEME|..];
      assert reference == SCHEME + rest;
      if IsId(id) && reference == SCHEME + id + "\n" {
        assert rest == id + "\n";
        assert rest[|id|] == '\n' && !IsIdChar(rest[|id|]);
        assert rest[..|id|] == id;
      }
      if rest != "" && rest[|rest| - 1] == '\n' {
        assert rest == rest[..|rest| - 1] + "\n";
        assert SCHEME + rest == SCHEME + rest[..|rest| - 1] + "\n";
      }
    }
  }

  /** Such as this one, which ends in a line feed. */
  lemma ALineFeedIsLetThrough()
    ensures ParseRef("hkp-asset://logo\n") == Some("logo")
  {
    assert "hkp-asset://logo\n" == SCHEME + "logo" + "\n";
    ReferencesRead("hkp-asset://logo\n", "logo");
  }

  // ── Content without a cache ───────────────────────────────────────────────

  datatype Loaded = Loaded(content: seq<Byte>, etag: Option<string>) | NotLoaded(problem: Problem)

  function Load(d: Descriptor, cached: Option<CacheEntry>, limits: Limits, net: Fetched): Loaded {
    match d.source
    case Text(text) => Loaded(Utf8(text), None)
    case Encoded(text) =>
      (match Base64.Decode(text)
       case Some(bytes) => Loaded(bytes, None)
       case None => NotLoaded(NotBase64))
    case Url(_) =>
      match net
      case Content(bytes, etag) =>
        if |bytes| > limits.maxBytes then NotLoaded(TooLarge(limits.maxBytes)) else Loaded(bytes, etag)
      case NotModified =>
        if cached.Some? then Loaded(cached.value.asset.content, cached.value.etag) else NotLoaded(Unreadable("answered 304"))
      case Failed(reason) => NotLoaded(Unreadable(reason))
  }

  function LowerCase(s: string): string {
    seq(|s|, i requires 0 <= i < |s| => if 'A' <= s[i] <= 'Z' then (s[i] as int + 32) as char else s[i])
  }

  function Check(d: Descriptor, content: seq<Byte>, limits: Limits): Option<Problem> {
    if |content| > limits.maxBytes then Some(TooLarge(limits.maxBytes))
    else if d.sha256.Some? && d.sha256.value != "" && limits.sha256(content) != LowerCase(d.sha256.value)
    then Some(Mismatch(limits.sha256(content)))
    else None
  }

  /** What a descriptor resolves to when it is loaded. */
  function Answer(id: string, d: Descriptor, cached: Option<CacheEntry>, limits: Limits, net: Fetched): Resolution {
    match Load(d, cached, limits, net)
    case NotLoaded(problem) => Refused(problem)
    case Loaded(content, _) =>
      match Check(d, content, limits)
      case Some(problem) => Refused(problem)
      case None => Resolved(Asset(id, d.mediaType, content))
  }

  // ── What a descriptor promises ────────────────────────────────────────────

  /** The digest a descriptor is pinned to, if it is: any case of its letters. */
  ghost predicate Pinned(d: Descriptor) { d.sha256.Some? && d.sha256.value != "" }

  ghost predicate IsDigest(digest: string, pin: string) {
    && |digest| == |pin|
    && forall i | 0 <= i < |pin| :: if 'A' <= pin[i] <= 'Z' then digest[i] as int == pin[i] as int + 32 else digest[i] == pin[i]
  }

  lemma DigestsCompare(digest: string, pin: string)
    ensures IsDigest(digest, pin) <==> digest == LowerCase(pin)
  {
    if IsDigest(digest, pin) {
      assert forall i | 0 <= i < |pin| :: digest[i] == LowerCase(pin)[i];
    }
  }

  /** The answer content comes to: it within the limit and of the pinned digest,
      else what is wrong with it. */
  ghost function Judged(id: string, d: Descriptor, content: seq<Byte>, limits: Limits): Resolution {
    if |content| > limits.maxBytes then Refused(TooLarge(limits.maxBytes))
    else if Pinned(d) && !IsDigest(limits.sha256(content), d.sha256.value) then Refused(Mismatch(limits.sha256(content)))
    else Resolved(Asset(id, d.mediaType, content))
  }

  /** The answer a descriptor that carries its content owes. */
  ghost predicate AsCarried(id: string, d: Descriptor, limits: Limits, answer: Resolution) {
    match d.source
    case Text(text) =>
      exists content :: DecodeUtf8(content) == Some(text) && answer == Judged(id, d, content, limits)
    case Encoded(text) =>
      || (exists bytes :: Base64.Spells(text, bytes) && answer == Judged(id, d, bytes, limits))
      || (answer == Refused(NotBase64) && forall bytes :: !Base64.Spells(text, bytes))
    case Url(_) => false
  }

  /** The answer a descriptor with a URL owes once that was fetched, `cached`
      being what was cached of this version of it. */
  ghost predicate AsFetched(id: string, d: Descriptor, cached: Option<CacheEntry>, limits: Limits, net: Fetched, answer: Resolution) {
    && d.source.Url?
    && match net
       case Content(bytes, _) => answer == Judged(id, d, bytes, limits)
       case NotModified =>
         if cached.Some? then answer == Judged(id, d, cached.value.asset.content, limits)
         else answer.Refused? && answer.problem.Unreadable?
       case Failed(reason) => answer == Refused(Unreadable(reason))
  }

  lemma CheckJudges(id: string, d: Descriptor, content: seq<Byte>, limits: Limits)
    ensures Judged(id, d, content, limits) ==
            match Check(d, content, limits)
            case Some(problem) => Refused(problem)
            case None => Resolved(Asset(id, d.mediaType, content))
  {
    if Pinned(d) {
      DigestsCompare(limits.sha256(content), d.sha256.value);
    }
  }

  /** Loading answers as the descriptor promises. */
  lemma AnswerIsOwed(id: string, d: Descriptor, cached: Option<CacheEntry>, limits: Limits, net: Fetched)
    ensures var answer := Answer(id, d, cached, limits, net);
            if d.source.Url? then AsFetched(id, d, cached, limits, net, answer) else AsCarried(id, d, limits, answer)
  {
    match d.source
    case Text(text) =>
      Utf8RoundTrip(text);
      CheckJudges(id, d, Utf8(text), limits);
    case Encoded(text) =>
      var decoded := Base64.Decode(text);
      forall bytes ensures Base64.Spells(text, bytes) <==> decoded == Some(bytes) { Base64.DecodesExactly(text, bytes); }
      if decoded.Some? {
        CheckJudges(id, d, decoded.value, limits);
      }
    case Url(_) =>
      match net
      case Content(bytes, _) => CheckJudges(id, d, bytes, limits);
      case NotModified =>
        if cached.Some? {
          CheckJudges(id, d, cached.value.asset.content, limits);
        }
      case Failed(_) =>
  }

  /** What is owed for carried content is one answer, since text is read off one
      content only and base64 spells one sequence of bytes. */
  lemma CarriedIsOne(id: string, d: Descriptor, limits: Limits, answer: Resolution, other: Resolution)
    requires AsCarried(id, d, limits, answer) && AsCarried(id, d, limits, other)
    ensures answer == other
  {
    match d.source
    case Text(text) =>
      var a :| DecodeUtf8(a) == Some(text) && answer == Judged(id, d, a, limits);
      var b :| DecodeUtf8(b) == Some(text) && other == Judged(id, d, b, limits);
      OnlyUtf8(a);
      OnlyUtf8(b);
    case Encoded(text) =>
      if answer != Refused(NotBase64) || other != Refused(NotBase64) {
        var a :| Base64.Spells(text, a) && answer == Judged(id, d, a, limits);
        var b :| Base64.Spells(text, b) && other == Judged(id, d, b, limits);
        Base64.DecodesExactly(text, a);
        Base64.DecodesExactly(text, b);
      }
  }

  function EtagOf(d: Descriptor, cached: Option<CacheEntry>, limits: Limits, net: Fetched): Option<string> {
    match Load(d, cached, limits, net)
    case Loaded(_, etag) => etag
    case NotLoaded(_) => None
  }

  // ── The cache ─────────────────────────────────────────────────────────────

  function SizeOf(e: Entry<string, CacheEntry>): nat { |e.value.asset.content| }

  function Total(cache: Dict<string, CacheEntry>): nat {
    if cache == [] then 0 else SizeOf(cache[0]) + Total(cache[1..])
  }

  function Forget(s: State, id: string): State {
    if Has(s.cache, id)
    then s.(cache := Remove(s.cache, id), cachedBytes := s.cachedBytes - SizeOf(s.cache[Find(s.cache, id)]))
    else s
  }

  /** Oldest entries forgotten until `size` more bytes fit. */
  function MakeRoom(s: State, size: nat, limit: nat): State
    decreases |s.cache|
  {
    if s.cache != [] && s.cachedBytes + size > limit
    then MakeRoom(s.(cache := s.cache[1..], cachedBytes := s.cachedBytes - SizeOf(s.cache[0])), size, limit)
    else s
  }

  function Remember(s: State, id: string, e: CacheEntry, limits: Limits): State {
    var t, size := Forget(s, id), |e.asset.content|;
    if size > limits.maxCacheBytes then t
    else
      var u := MakeRoom(t, size, limits.maxCacheBytes);
      u.(cache := u.cache + [Entry(id, e)], cachedBytes := u.cachedBytes + size)
  }

  function Touch(s: State, id: string): State {
    if Has(s.cache, id) then s.(cache := Remove(s.cache, id) + [s.cache[Find(s.cache, id)]]) else s
  }

  // ── Resolving ─────────────────────────────────────────────────────────────

  function DescriptorOf(s: State, id: string): Option<Descriptor> {
    if id in s.descriptors then Some(s.descriptors[id]) else None
  }

  predicate Revalidates(d: Descriptor) { d.source.Url? && (d.sha256.None? || d.sha256.value == "") }

  /** What is cached of this very version. */
  function CachedFor(s: State, id: string, d: Descriptor): Option<CacheEntry> {
    var cached := Get(s.cache, id);
    if cached.Some? && cached.value.version == d then cached else None
  }

  predicate IsHit(s: State, id: string) {
    id in s.descriptors && CachedFor(s, id, s.descriptors[id]).Some? && !Revalidates(s.descriptors[id])
  }

  /** The last locked section: what was loaded for `d` is kept only if `d` is
      still the descriptor. */
  function Commit(s: State, id: string, d: Descriptor, asset: Asset, etag: Option<string>, limits: Limits): State {
    if DescriptorOf(s, id) == Some(d) then Remember(s, id, CacheEntry(d, asset, etag), limits) else s
  }

  /** A resolve nothing interferes with. */
  function Resolve(s: State, reference: string, limits: Limits, net: Fetched): (State, Resolution) {
    match ParseRef(reference)
    case None => (s, Refused(NotAReference))
    case Some(id) =>
      if id !in s.descriptors then (s, Refused(Unknown(id)))
      else if IsHit(s, id) then (Touch(s, id), Resolved(Get(s.cache, id).value.asset))
      else
        var d := s.descriptors[id];
        var cached := CachedFor(s, id, d);
        var answer := Answer(id, d, cached, limits, net);
        if answer.Refused? then (s, answer)
        else (Commit(s, id, d, answer.asset, EtagOf(d, cached, limits, net), limits), answer)
  }

  // ── Editing ───────────────────────────────────────────────────────────────

  function SetDescriptor(s: State, id: string, entry: Option<Descriptor>): State {
    s.(descriptors := if entry.Some? then s.descriptors[id := entry.value] else s.descriptors - {id})
  }

  /** The cache without the entries of some ids. */
  function Without(cache: Dict<string, CacheEntry>, gone: set<string>): Dict<string, CacheEntry> {
    if cache == [] then []
    else (if cache[0].key in gone then [] else [cache[0]]) + Without(cache[1..], gone)
  }

  /** Everything is replaced, and what is cached of an id is forgotten where its
      version changed. */
  function Replace(s: State, entries: map<string, Descriptor>): State {
    var kept := Without(s.cache, Changed(s.descriptors, entries));
    State(entries, kept, s.cachedBytes - Total(s.cache) + Total(kept))
  }

  function Changed(before: map<string, Descriptor>, now: map<string, Descriptor>): (gone: set<string>)
    ensures forall id :: id in gone <==>
              (id in before || id in now) && !(id in before && id in now && before[id] == now[id])
  {
    set id | id in before.Keys + now.Keys && !(id in before && id in now && before[id] == now[id])
  }

  /** Entries one by one, each set and then, where its version changed, forgotten. */
  function Merge(s: State, entries: seq<(string, Option<Descriptor>)>): State
    decreases |entries|
  {
    if entries == [] then s
    else
      var (id, entry) := entries[0];
      var t := SetDescriptor(s, id, entry);
      Merge(if DescriptorOf(s, id) != entry then Forget(t, id) else t, entries[1..])
  }

  // ── Accounting ────────────────────────────────────────────────────────────

  /** The byte counter is the sum of what is cached, within the limit. */
  ghost predicate Accounted(s: State, limits: Limits) {
    Unique(s.cache) && s.cachedBytes == Total(s.cache) <= limits.maxCacheBytes
  }

  lemma {:induction false} TotalAppend(a: Dict<string, CacheEntry>, b: Dict<string, CacheEntry>)
    ensures Total(a + b) == Total(a) + Total(b)
  {
    if a == [] {
      assert a + b == b;
    } else {
      assert (a + b)[1..] == a[1..] + b;
      TotalAppend(a[1..], b);
    }
  }

  lemma TotalOfParts(a: Dict<string, CacheEntry>, e: Entry<string, CacheEntry>, b: Dict<string, CacheEntry>)
    ensures Total(a + [e] + b) == Total(a) + SizeOf(e) + Total(b)
    ensures Total(a + b) == Total(a) + Total(b)
  {
    assert [e][1..] == [];
    TotalAppend(a, [e]);
    TotalAppend(a + [e], b);
    TotalAppend(a, b);
  }

  lemma TotalRemove(cache: Dict<string, CacheEntry>, id: string)
    requires Has(cache, id)
    ensures Total(Remove(cache, id)) == Total(cache) - SizeOf(cache[Find(cache, id)])
  {
    var i := Find(cache, id);
    TotalOfParts(cache[..i], cache[i], cache[i + 1..]);
    assert cache == cache[..i] + [cache[i]] + cache[i + 1..];
  }

  lemma TotalOfEnd(cache: Dict<string, CacheEntry>, k: nat, j: nat)
    requires k <= j <= |cache|
    ensures Total(cache[k..]) >= Total(cache[j..])
  {
    assert cache[k..] == cache[k..j] + cache[j..];
    TotalAppend(cache[k..j], cache[j..]);
  }

  lemma ForgottenIsGone(s: State, id: string, limits: Limits)
    requires Accounted(s, limits)
    ensures Accounted(Forget(s, id), limits)
    ensures forall i | 0 <= i < |Forget(s, id).cache| :: Forget(s, id).cache[i].key != id
  {
    GetRemove(s.cache, id, id);
    if Has(s.cache, id) {
      TotalRemove(s.cache, id);
    }
  }

  lemma ForgetAccounted(s: State, id: string, limits: Limits)
    requires Accounted(s, limits)
    ensures Accounted(Forget(s, id), limits) && !Has(Forget(s, id).cache, id)
    ensures forall k :: k != id ==> Get(Forget(s, id).cache, k) == Get(s.cache, k)
  {
    ForgottenIsGone(s, id, limits);
    forall k | k != id
      ensures Get(Forget(s, id).cache, k) == Get(s.cache, k)
    {
      GetRemove(s.cache, id, k);
    }
  }

  /** The oldest part of a cache that has to go, which is `gone` long. */
  ghost predicate IsOldPart(cache: Dict<string, CacheEntry>, gone: nat, left: Dict<string, CacheEntry>, size: nat, limit: nat) {
    gone <= |cache| && left == cache[gone..] && (gone > 0 ==> Total(cache[gone - 1..]) + size > limit)
  }

  lemma OneMoreGone(cache: Dict<string, CacheEntry>, gone: nat, left: Dict<string, CacheEntry>, size: nat, limit: nat)
    requires cache != [] && Total(cache) + size > limit && IsOldPart(cache[1..], gone, left, size, limit)
    ensures IsOldPart(cache, gone + 1, left, size, limit)
  {
    assert cache[1..][gone..] == cache[gone + 1..];
    if gone > 0 {
      assert cache[1..][gone - 1..] == cache[gone..];
    } else {
      assert cache[0..] == cache;
    }
  }

  /** The loop ends with an oldest part of the cache gone that makes room: what
      is left fits, and with one entry fewer gone it would not. */
  lemma {:induction false} MakesRoom(s: State, size: nat, limit: nat)
    requires Unique(s.cache) && s.cachedBytes == Total(s.cache) && size <= limit
    ensures var t := MakeRoom(s, size, limit);
            && t.descriptors == s.descriptors && t.cachedBytes == Total(t.cache) && t.cachedBytes + size <= limit
            && |t.cache| <= |s.cache| && IsOldPart(s.cache, |s.cache| - |t.cache|, t.cache, size, limit)
    decreases |s.cache|
  {
    if s.cache != [] && s.cachedBytes + size > limit {
      var u := s.(cache := s.cache[1..], cachedBytes := s.cachedBytes - SizeOf(s.cache[0]));
      MakesRoom(u, size, limit);
      var t := MakeRoom(u, size, limit);
      OneMoreGone(s.cache, |u.cache| - |t.cache|, t.cache, size, limit);
    } else {
      assert s.cache[0..] == s.cache;
    }
  }

  lemma LastAccounted(cache: Dict<string, CacheEntry>, gone: nat, e: Entry<string, CacheEntry>)
    requires Unique(cache) && gone <= |cache| && forall i | 0 <= i < |cache| :: cache[i].key != e.key
    ensures Unique(cache[gone..] + [e]) && Total(cache[gone..] + [e]) == Total(cache[gone..]) + SizeOf(e)
  {
    assert forall i | 0 <= i < |cache[gone..]| :: cache[gone..][i] == cache[gone + i];
    assert [e][1..] == [];
    TotalAppend(cache[gone..], [e]);
  }

  lemma RememberAccounted(s: State, id: string, e: CacheEntry, limits: Limits)
    requires Accounted(s, limits)
    ensures Accounted(Remember(s, id, e, limits), limits)
  {
    ForgottenIsGone(s, id, limits);
    var t, size := Forget(s, id), |e.asset.content|;
    if size <= limits.maxCacheBytes {
      MakesRoom(t, size, limits.maxCacheBytes);
      var u := MakeRoom(t, size, limits.maxCacheBytes);
      LastAccounted(t.cache, |t.cache| - |u.cache|, Entry(id, e));
    }
  }

  /** An insertion leaves nothing of the id but the new entry, last, behind the
      other entries in the order they had, less a least recently used part of
      them. Content larger than the whole cache is not kept, and costs no other
      entry. */
  lemma RememberEvicts(s: State, id: string, e: CacheEntry, limits: Limits)
    requires Accounted(s, limits)
    ensures var size, others, t := |e.asset.content|, Remove(s.cache, id), Remember(s, id, e, limits);
            if size > limits.maxCacheBytes then t.cache == others
            else
              && 1 <= |t.cache| <= |others| + 1 && var gone := |others| + 1 - |t.cache|;
              && t.cache == others[gone..] + [Entry(id, e)]
              && (gone > 0 ==> Total(others[gone - 1..]) + size > limits.maxCacheBytes)
  {
    ForgetAccounted(s, id, limits);
    if |e.asset.content| <= limits.maxCacheBytes {
      MakesRoom(Forget(s, id), |e.asset.content|, limits.maxCacheBytes);
    }
  }

  /** And that part is the shortest that makes room: with any shorter one gone
      the new content would not fit. */
  lemma RememberEvictsShortest(s: State, id: string, e: CacheEntry, limits: Limits)
    requires Accounted(s, limits) && |e.asset.content| <= limits.maxCacheBytes
    ensures var others, t := Remove(s.cache, id), Remember(s, id, e, limits);
            && 1 <= |t.cache| <= |others| + 1 && var gone := |others| + 1 - |t.cache|;
            && t.cache == others[gone..] + [Entry(id, e)] && t.cachedBytes == Total(t.cache) <= limits.maxCacheBytes
            && forall k | 0 <= k < gone :: Total(others[k..]) + |e.asset.content| > limits.maxCacheBytes
  {
    RememberEvicts(s, id, e, limits);
    RememberAccounted(s, id, e, limits);
    var others := Remove(s.cache, id);
    var gone := |others| + 1 - |Remember(s, id, e, limits).cache|;
    forall k | 0 <= k < gone
      ensures Total(others[k..]) + |e.asset.content| > limits.maxCacheBytes
    {
      TotalOfEnd(others, k, gone - 1);
    }
  }

  lemma TouchAccounted(s: State, id: string, limits: Limits)
    requires Accounted(s, limits)
    ensures Accounted(Touch(s, id), limits)
  {
    if Has(s.cache, id) {
      var e := s.cache[Find(s.cache, id)];
      GetRemove(s.cache, id, id);
      TotalRemove(s.cache, id);
      TotalAppend(Remove(s.cache, id), [e]);
      assert [e][1..] == [];
    }
  }

  lemma {:induction false} FindWithout(cache: Dict<string, CacheEntry>, gone: set<string>, id: string)
    requires Unique(cache)
    ensures Unique(Without(cache, gone))
    ensures Get(Without(cache, gone), id) == if id in gone then None else Get(cache, id)
    ensures forall i | 0 <= i < |Without(cache, gone)| :: Without(cache, gone)[i] in cache && Without(cache, gone)[i].key !in gone
  {
    if cache != [] {
      FindWithout(cache[1..], gone, id);
      var rest := Without(cache[1..], gone);
      GetCons(cache[0], rest, id);
      GetCons(cache[0], cache[1..], id);
      assert cache == [cache[0]] + cache[1..];
      assert cache[0].key in gone ==> Without(cache, gone) == rest;
    }
  }

  lemma {:induction false} WithoutMore(cache: Dict<string, CacheEntry>, gone: set<string>, id: string)
    requires Unique(cache) && id !in gone
    ensures Remove(Without(cache, gone), id) == Without(cache, gone + {id})
  {
    if cache != [] {
      var rest := Without(cache[1..], gone);
      WithoutMore(cache[1..], gone, id);
      RemoveCons(cache[0], rest, id);
      if cache[0].key == id {
        NotThere(cache[1..], gone, id);
        assert Without(cache, gone + {id}) == Without(cache[1..], gone + {id});
      } else if cache[0].key in gone {
        assert Without(cache, gone) == rest;
      }
    }
  }

  lemma {:induction false} NotThere(cache: Dict<string, CacheEntry>, gone: set<string>, id: string)
    requires !Has(cache, id)
    ensures Without(cache, gone + {id}) == Without(cache, gone) && !Has(Without(cache, gone), id)
  {
    if cache != [] {
      NotThere(cache[1..], gone, id);
      GetCons(cache[0], Without(cache[1..], gone), id);
      GetCons(cache[0], cache[1..], id);
      assert cache == [cache[0]] + cache[1..];
      assert cache[0].key in gone ==> Without(cache, gone) == Without(cache[1..], gone);
    }
  }
}
