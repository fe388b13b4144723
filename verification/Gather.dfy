/** Gather: collects the parts of each group and, once it holds them all, turns
    them back into one value. What one call does, as a function of the state. */
module Gather {
  import opened Strings
  import opened OrderedDict
  import opened Values

  const MAX_REFUSED := 1024
  const MAX_GROUP_LENGTH := 256

  datatype Part = Part(group: string, index: nat, total: nat, item: Value)

  /** The part a value is, or None where it is none and passes through. */
  function PartOf(input: Value): (p: Option<Part>)
    ensures p.Some? ==> p.value.group != "" && p.value.index < p.value.total
  {
    if !input.Dict? || !({"item", "group", "index", "total"} <= input.fields.Keys) then None
    else
      var f := input.fields;
      var group, index, total := f["group"], WholeNumber(f["index"]), WholeNumber(f["total"]);
      if && group.Str? && group.s != "" && |group.s| <= MAX_GROUP_LENGTH
         && total.Some? && total.value > 0 && index.Some? && 0 <= index.value < total.value
      then Some(Part(group.s, index.value, total.value, f["item"]))
      else None
  }

  ghost predicate IsWhole(v: Value, n: nat) { v == Int(n) || v == Real(n as real) }

  /** A value is a part exactly if it has these fields, the numbers stored either
      way but whole. */
  lemma PartsExactly(input: Value, p: Part)
    ensures PartOf(input) == Some(p) <==>
            && input.Dict? && {"item", "group", "index", "total"} <= input.fields.Keys
            && input.fields["item"] == p.item
            && input.fields["group"] == Str(p.group) && 1 <= |p.group| <= 256
            && IsWhole(input.fields["index"], p.index) && IsWhole(input.fields["total"], p.total) && p.index < p.total
  {
  }

  /** The limits and the pipeline, fixed within a run. `jsonSize` is the length
      of a value's JSON text, 0 where it has none. */
  datatype Settings = Settings(
    bypass: bool,
    stopPropagation: bool,
    maxBytes: nat,
    maxGroups: nat,
    timeoutMs: nat,
    pipeline: Option<(string, seq<Value>) -> Value>,
    jsonSize: Value -> nat)

  /** What a part costs to hold. */
  function SizeOf(cfg: Settings, item: Value): nat {
    match item
    case Str(s) => Utf8Length(s)
    case Bytes(b) => |b|
    case Null => 0
    case _ => cfg.jsonSize(item)
  }

  datatype Collecting = Collecting(items: map<nat, Value>, total: nat, bytes: nat, startedAt: real)

  datatype Reason = TooManyGroups | TotalsDiffer(first: nat, later: nat) | TooLarge

  datatype Notice =
    | Progress(group: string, received: nat, total: nat, pending: nat)
    | Refused(group: string, reason: Reason, pending: nat)
    | TimedOut(group: string, received: nat, total: nat, pending: nat)

  datatype State = State(collecting: Dict<string, Collecting>, refused: Dict<string, real>, notices: seq<Notice>)

  const EMPTY := State([], [], [])

  predicate Stale(cfg: Settings, now: real, at: real) { now - at > cfg.timeoutMs as real / 1000.0 }

  function Arriving(cfg: Settings, now: real): Collecting -> bool { (c: Collecting) => !Stale(cfg, now, c.startedAt) }

  function Recent(cfg: Settings, now: real): real -> bool { at => !Stale(cfg, now, at) }

  // ── One call ──────────────────────────────────────────────────────────────

  function LetGo(s: State, cfg: Settings, now: real): State {
    State(Keep(s.collecting, Arriving(cfg, now)),
          Keep(s.refused, Recent(cfg, now)),
          s.notices + TimeoutNotices(s.collecting, cfg, now, |s.collecting|))
  }

  function TimeoutNotices(d: Dict<string, Collecting>, cfg: Settings, now: real, pending: nat): (ns: seq<Notice>)
    requires |d| <= pending
    ensures forall i | 0 <= i < |ns| :: ns[i].TimedOut?
  {
    if d == [] then []
    else if Stale(cfg, now, d[0].value.startedAt) then
      var c := d[0].value;
      [TimedOut(d[0].key, |c.items|, c.total, pending - 1)] + TimeoutNotices(d[1..], cfg, now, pending - 1)
    else TimeoutNotices(d[1..], cfg, now, pending)
  }

  /** The refusals still remembered: the oldest are forgotten first. */
  function Shorten(refused: Dict<string, real>): (r: Dict<string, real>)
    ensures |r| <= MAX_REFUSED
    ensures |refused| <= MAX_REFUSED ==> r == refused
  {
    if |refused| > MAX_REFUSED then refused[|refused| - MAX_REFUSED..] else refused
  }

  lemma ForgetsOldest(refused: Dict<string, real>)
    requires |refused| > MAX_REFUSED
    ensures Shorten(refused[1..]) == Shorten(refused)
  {
    var k := |refused| - 1 - MAX_REFUSED;
    assert refused[1..][k..] == refused[k + 1..];
    assert refused[1..][0..] == refused[1..];
  }

  function Refuse(s: State, group: string, now: real, reason: Reason): State {
    var left := Remove(s.collecting, group);
    State(left, Shorten(Put(s.refused, group, now)), s.notices + [Refused(group, reason, |left|)])
  }

  function Ordered(items: map<nat, Value>, total: nat): (l: seq<Value>)
    requires forall i | 0 <= i < total :: i in items
    ensures |l| == total && forall i | 0 <= i < total :: l[i] == items[i]
  {
    seq(total, i requires 0 <= i < total => items[i])
  }

  /** What a complete group becomes, as this service passes it on. */
  function Made(cfg: Settings, group: string, items: seq<Value>): Value {
    if cfg.stopPropagation then Null
    else if cfg.pipeline.Some? then cfg.pipeline.value(group, items)
    else List(items)
  }

  /** What is held of a group, nothing yet for a new one. */
  function Held(s: State, p: Part, now: real): Collecting {
    if Has(s.collecting, p.group) then Get(s.collecting, p.group).value else Collecting(map[], p.total, 0, now)
  }

  function Added(cfg: Settings, c: Collecting, p: Part): Collecting {
    c.(items := c.items[p.index := p.item], bytes := c.bytes + SizeOf(cfg, p.item))
  }

  /** One part, once stale groups are gone. */
  function Take(s: State, cfg: Settings, now: real, p: Part): (State, Value)
    requires Bounded(s, cfg) && p.index < p.total
  {
    if Has(s.refused, p.group) then (s, Null)
    else if !Has(s.collecting, p.group) && |s.collecting| >= cfg.maxGroups then
      (Refuse(s, p.group, now, TooManyGroups), Null)
    else
      var c := Held(s, p, now);
      if c.total != p.total then (Refuse(s, p.group, now, TotalsDiffer(c.total, p.total)), Null)
      else if p.index in c.items then (s, Null)
      else if c.bytes + SizeOf(cfg, p.item) > cfg.maxBytes then (Refuse(s, p.group, now, TooLarge), Null)
      else
        var c' := Added(cfg, c, p);
        var held := Put(s.collecting, p.group, c');
        var notices := s.notices + [Progress(p.group, |c'.items|, p.total, |held|)];
        if |c'.items| < p.total then (s.(collecting := held, notices := notices), Null)
        else
          HeldIsBounded(s, cfg, p, now);
          FullRange(c'.items.Keys, p.total);
          (s.(collecting := Remove(held, p.group), notices := notices),
           Made(cfg, p.group, Ordered(c'.items, p.total)))
  }

  function Process(s: State, cfg: Settings, now: real, input: Value): (State, Value)
    requires Bounded(s, cfg)
  {
    if cfg.bypass || PartOf(input).None? then (s, input)
    else
      LetGoBounded(s, cfg, now);
      Take(LetGo(s, cfg, now), cfg, now, PartOf(input).value)
  }

  // ── What every call keeps ─────────────────────────────────────────────────

  /** What an item weighs: the bytes of a text in UTF-8 or of binary, nothing for
      Null, and the length of its JSON for anything else. */
  ghost predicate Weighs(cfg: Settings, item: Value, n: nat) {
    && (item.Str? ==> n == |Utf8(item.s)|)
    && (item.Bytes? ==> n == |item.bytes|)
    && (item.Null? ==> n == 0)
    && (!item.Str? && !item.Bytes? && !item.Null? ==> n == cfg.jsonSize(item))
  }

  lemma SizesWeigh(cfg: Settings, item: Value, n: nat)
    ensures n == SizeOf(cfg, item) <==> Weighs(cfg, item, n)
  {
  }

  /** The items up to the `n`th weigh this much together. */
  function HeldBytes(cfg: Settings, items: map<nat, Value>, n: nat): nat {
    if n == 0 then 0 else HeldBytes(cfg, items, n - 1) + (if n - 1 in items then SizeOf(cfg, items[n - 1]) else 0)
  }

  /** One incomplete group: it holds at least one part and lacks at least one,
      and its byte count is that of the parts it holds, within the limit. */
  ghost predicate BoundedGroup(c: Collecting, cfg: Settings) {
    && 1 <= |c.items| < c.total
    && (forall i | i in c.items :: i < c.total)
    && c.bytes == HeldBytes(cfg, c.items, c.total) <= cfg.maxBytes
  }

  ghost predicate Bounded(s: State, cfg: Settings) {
    && Unique(s.collecting) && Unique(s.refused)
    && |s.collecting| <= cfg.maxGroups
    && |s.refused| <= MAX_REFUSED
    && (forall i | 0 <= i < |s.collecting| :: BoundedGroup(s.collecting[i].value, cfg))
    && (forall i | 0 <= i < |s.collecting| :: !Has(s.refused, s.collecting[i].key))
  }

  /** What is remembered is in the order of time, none of it in the future. */
  ghost predicate Timed(s: State, now: real) {
    && (forall i, j | 0 <= i < j < |s.refused| :: s.refused[i].value <= s.refused[j].value)
    && (forall i | 0 <= i < |s.refused| :: s.refused[i].value <= now)
    && (forall i | 0 <= i < |s.collecting| :: s.collecting[i].value.startedAt <= now)
  }

  /** No longer ago than the timeout, which is in milliseconds and the clock in
      seconds. */
  predicate Lasts(cfg: Settings, now: real, at: real) { (now - at) * 1000.0 <= cfg.timeoutMs as real }

  ghost predicate NothingStale(s: State, cfg: Settings, now: real) {
    && (forall i | 0 <= i < |s.collecting| :: Lasts(cfg, now, s.collecting[i].value.startedAt))
    && (forall i | 0 <= i < |s.refused| :: Lasts(cfg, now, s.refused[i].value))
  }

  function Range(n: nat): (r: set<nat>)
    ensures |r| == n
    ensures forall i: nat :: i in r <==> i < n
  {
    if n == 0 then {} else Range(n - 1) + {n - 1}
  }

  /** As many indices below `n` as there are, are all of them. */
  lemma FullRange(s: set<nat>, n: nat)
    requires forall i | i in s :: i < n
    ensures |s| <= n
    ensures |s| == n ==> forall i: nat | i < n :: i in s
  {
    SubsetSize(s, Range(n));
    if |s| == n && s != Range(n) {
      SubsetSize(Range(n) - s, Range(n));
      assert s < Range(n);
      StrictSubsetSize(s, Range(n));
    }
  }

  lemma {:induction false} SubsetSize(s: set<nat>, t: set<nat>)
    requires s <= t
    ensures |s| <= |t|
  {
    if s != {} {
      var x :| x in s;
      SubsetSize(s - {x}, t - {x});
    }
  }

  lemma StrictSubsetSize(s: set<nat>, t: set<nat>)
    requires s < t
    ensures |s| < |t|
  {
    assert t - s != {};
    var x :| x in t - s;
    SubsetSize(s, t - {x});
  }

  lemma HeldIsBounded(s: State, cfg: Settings, p: Part, now: real)
    requires Bounded(s, cfg) && p.index < p.total && Held(s, p, now).total == p.total
    ensures var c := Held(s, p, now); |c.items| < c.total && forall i | i in c.items :: i < c.total
    ensures var c := Held(s, p, now); c.bytes == HeldBytes(cfg, c.items, c.total)
  {
    if Has(s.collecting, p.group) {
      assert BoundedGroup(s.collecting[Find(s.collecting, p.group)].value, cfg);
    } else {
      NoBytes(cfg, p.total);
    }
  }

  lemma {:induction false} NoBytes(cfg: Settings, n: nat)
    ensures HeldBytes(cfg, map[], n) == 0
  {
    if n > 0 {
      NoBytes(cfg, n - 1);
    }
  }

  lemma LetGoBounded(s: State, cfg: Settings, now: real)
    requires Bounded(s, cfg)
    ensures Bounded(LetGo(s, cfg, now), cfg)
  {
    var arriving, recent := Arriving(cfg, now), Recent(cfg, now);
    var t := LetGo(s, cfg, now);
    KeepUnique(s.collecting, arriving);
    KeepUnique(s.refused, recent);
    KeepIn(s.collecting, arriving);
    forall i | 0 <= i < |t.collecting|
      ensures BoundedGroup(t.collecting[i].value, cfg) && !Has(t.refused, t.collecting[i].key)
    {
      var j :| 0 <= j < |s.collecting| && s.collecting[j] == t.collecting[i];
      GetKeep(s.refused, recent, t.collecting[i].key);
    }
  }

  lemma {:induction false} AddedBytes(cfg: Settings, items: map<nat, Value>, k: nat, v: Value, n: nat)
    requires k !in items
    ensures HeldBytes(cfg, items[k := v], n) == HeldBytes(cfg, items, n) + (if k < n then SizeOf(cfg, v) else 0)
  {
    if n > 0 {
      AddedBytes(cfg, items, k, v, n - 1);
    }
  }

  lemma AddedIsBounded(s: State, cfg: Settings, p: Part, now: real)
    requires Bounded(s, cfg) && p.index < p.total
    requires var c := Held(s, p, now); c.total == p.total && p.index !in c.items && c.bytes + SizeOf(cfg, p.item) <= cfg.maxBytes
    ensures var c := Added(cfg, Held(s, p, now), p);
            |c.items| == |Held(s, p, now).items| + 1 && (|c.items| < p.total ==> BoundedGroup(c, cfg))
  {
    var c := Held(s, p, now);
    HeldIsBounded(s, cfg, p, now);
    AddedBytes(cfg, c.items, p.index, p.item, p.total);
    var items := c.items[p.index := p.item];
    assert items.Keys == c.items.Keys + {p.index};
    assert |items.Keys| == |items| && |c.items.Keys| == |c.items|;
  }

  lemma PutBounded(s: State, cfg: Settings, group: string, c: Collecting)
    requires Bounded(s, cfg) && BoundedGroup(c, cfg) && !Has(s.refused, group)
    requires Has(s.collecting, group) || |s.collecting| < cfg.maxGroups
    ensures Bounded(s.(collecting := Put(s.collecting, group, c)), cfg)
  {
    GetPut(s.collecting, group, c, group);
  }

  lemma RemovePut<V>(d: Dict<string, V>, k: string, v: V)
    requires Unique(d)
    ensures Remove(Put(d, k, v), k) == Remove(d, k)
  {
    GetPut(d, k, v, k);
    FindHere(Put(d, k, v), if Has(d, k) then Find(d, k) else |d|);
  }

  lemma RemoveBounded(s: State, cfg: Settings, group: string)
    requires Bounded(s, cfg)
    ensures var t := s.(collecting := Remove(s.collecting, group)); Bounded(t, cfg) && !Has(t.collecting, group)
  {
    GetRemove(s.collecting, group, group);
    var left := Remove(s.collecting, group);
    var i := Find(s.collecting, group);
    assert forall j | 0 <= j < |left| :: left[j] == s.collecting[if j < i then j else j + 1];
  }

  lemma RefuseBounded(s: State, cfg: Settings, group: string, now: real, reason: Reason)
    requires Bounded(s, cfg)
    ensures Bounded(Refuse(s, group, now, reason), cfg)
  {
    RemoveBounded(s, cfg, group);
    GetPut(s.refused, group, now, group);
    var t := Refuse(s, group, now, reason);
    forall i | 0 <= i < |t.collecting|
      ensures !Has(t.refused, t.collecting[i].key)
    {
      var k := t.collecting[i].key;
      GetPut(s.refused, group, now, k);
      FindHere(t.collecting, i);
      StillRefused(Put(s.refused, group, now), k);
    }
  }

  lemma StillRefused(refused: Dict<string, real>, k: string)
    ensures Has(Shorten(refused), k) ==> Has(refused, k)
  {
    var r := Shorten(refused);
    if Has(r, k) {
      assert r[Find(r, k)] in refused;
    }
  }

  lemma TakeBounded(s: State, cfg: Settings, now: real, p: Part)
    requires Bounded(s, cfg) && p.index < p.total
    ensures Bounded(Take(s, cfg, now, p).0, cfg)
  {
    var c := Held(s, p, now);
    if Has(s.refused, p.group) {
    } else if !Has(s.collecting, p.group) && |s.collecting| >= cfg.maxGroups {
      RefuseBounded(s, cfg, p.group, now, TooManyGroups);
    } else if c.total != p.total {
      RefuseBounded(s, cfg, p.group, now, TotalsDiffer(c.total, p.total));
    } else if p.index in c.items {
    } else if c.bytes + SizeOf(cfg, p.item) > cfg.maxBytes {
      RefuseBounded(s, cfg, p.group, now, TooLarge);
    } else {
      AddedIsBounded(s, cfg, p, now);
      var c' := Added(cfg, c, p);
      if |c'.items| < p.total {
        PutBounded(s, cfg, p.group, c');
      } else {
        RemovePut(s.collecting, p.group, c');
        RemoveBounded(s, cfg, p.group);
      }
    }
  }

  ghost predicate RefusedOnTime(d: Dict<string, real>, cfg: Settings, now: real) {
    && (forall i, j | 0 <= i < j < |d| :: d[i].value <= d[j].value)
    && (forall i | 0 <= i < |d| :: d[i].value <= now && Lasts(cfg, now, d[i].value))
  }

  ghost predicate CollectingOnTime(d: Dict<string, Collecting>, cfg: Settings, now: real) {
    forall i | 0 <= i < |d| :: d[i].value.startedAt <= now && Lasts(cfg, now, d[i].value.startedAt)
  }

  ghost predicate OnTime(s: State, cfg: Settings, now: real) {
    RefusedOnTime(s.refused, cfg, now) && CollectingOnTime(s.collecting, cfg, now)
  }

  lemma ShortenOnTime(d: Dict<string, real>, cfg: Settings, now: real)
    requires RefusedOnTime(d, cfg, now)
    ensures RefusedOnTime(Shorten(d), cfg, now)
  {
    if |d| > MAX_REFUSED {
      DropOnTime(d, |d| - MAX_REFUSED, cfg, now);
    }
  }

  lemma DropOnTime(d: Dict<string, real>, gone: nat, cfg: Settings, now: real)
    requires RefusedOnTime(d, cfg, now) && gone <= |d|
    ensures RefusedOnTime(d[gone..], cfg, now)
  {
    assert forall i | 0 <= i < |d[gone..]| :: d[gone..][i] == d[gone + i];
  }

  lemma RefuseOnTime(s: State, cfg: Settings, group: string, now: real, reason: Reason)
    requires OnTime(s, cfg, now) && !Has(s.refused, group)
    ensures OnTime(Refuse(s, group, now, reason), cfg, now)
  {
    RemoveOnTime(s, cfg, group, now);
    ShortenOnTime(s.refused + [Entry(group, now)], cfg, now);
  }

  lemma RemoveOnTime(s: State, cfg: Settings, group: string, now: real)
    requires OnTime(s, cfg, now)
    ensures OnTime(s.(collecting := Remove(s.collecting, group)), cfg, now)
  {
    var left := Remove(s.collecting, group);
    var i := Find(s.collecting, group);
    assert forall j | 0 <= j < |left| :: left[j] == s.collecting[if j < i then j else j + 1];
  }

  lemma TakeOnTime(s: State, cfg: Settings, now: real, p: Part)
    requires Bounded(s, cfg) && p.index < p.total && OnTime(s, cfg, now)
    ensures OnTime(Take(s, cfg, now, p).0, cfg, now)
  {
    var c := Held(s, p, now);
    if Has(s.refused, p.group) {
    } else if !Has(s.collecting, p.group) && |s.collecting| >= cfg.maxGroups {
      RefuseOnTime(s, cfg, p.group, now, TooManyGroups);
    } else if c.total != p.total {
      RefuseOnTime(s, cfg, p.group, now, TotalsDiffer(c.total, p.total));
    } else if p.index in c.items {
    } else if c.bytes + SizeOf(cfg, p.item) > cfg.maxBytes {
      RefuseOnTime(s, cfg, p.group, now, TooLarge);
    } else {
      var c' := Added(cfg, c, p);
      assert c'.startedAt <= now && Lasts(cfg, now, c'.startedAt);
      if |c'.items| >= p.total {
        RemovePut(s.collecting, p.group, c');
        RemoveOnTime(s, cfg, p.group, now);
      }
    }
  }

  lemma {:induction false} KeepOrdered(d: Dict<string, real>, p: real -> bool)
    requires forall i, j | 0 <= i < j < |d| :: d[i].value <= d[j].value
    ensures forall i, j | 0 <= i < j < |Keep(d, p)| :: Keep(d, p)[i].value <= Keep(d, p)[j].value
  {
    if d != [] {
      KeepOrdered(d[1..], p);
      KeepIn(d[1..], p);
      var r := Keep(d[1..], p);
      assert forall j | 0 <= j < |r| :: d[0].value <= r[j].value;
    }
  }

  lemma LetGoTimed(s: State, cfg: Settings, before: real, now: real)
    requires Timed(s, before) && before <= now
    ensures OnTime(LetGo(s, cfg, now), cfg, now)
  {
    KeepOrdered(s.refused, Recent(cfg, now));
    KeepIn(s.refused, Recent(cfg, now));
    KeepIn(s.collecting, Arriving(cfg, now));
  }

  lemma ProcessBounded(s: State, cfg: Settings, now: real, input: Value)
    requires Bounded(s, cfg)
    ensures Bounded(Process(s, cfg, now, input).0, cfg)
  {
    if !cfg.bypass && PartOf(input).Some? {
      LetGoBounded(s, cfg, now);
      TakeBounded(LetGo(s, cfg, now), cfg, now, PartOf(input).value);
    }
  }

  /** Whatever arrives, Gather stays within its limits: at most `maxGroups`
      incomplete groups, each holding at least one part, lacking at least one,
      and weighing what its parts weigh, at most `maxBytes`; none of them
      refused; at most 1024 refusals, oldest first. After a part, nothing
      pending or refused is past the timeout. */
  lemma ProcessKeepsBounds(s: State, cfg: Settings, before: real, now: real, input: Value)
    requires Bounded(s, cfg) && Timed(s, before) && before <= now
    ensures var t := Process(s, cfg, now, input).0;
            && Bounded(t, cfg) && Timed(t, now)
            && (!cfg.bypass && PartOf(input).Some? ==> NothingStale(t, cfg, now))
  {
    ProcessBounded(s, cfg, now, input);
    if !cfg.bypass && PartOf(input).Some? {
      LetGoBounded(s, cfg, now);
      LetGoTimed(s, cfg, before, now);
      TakeOnTime(LetGo(s, cfg, now), cfg, now, PartOf(input).value);
    }
  }
}
