/** Gather and Spread as the services the source has, and a runtime holding the
    two: Spread drives Gather by calling back into the runtime from inside its
    own call. */
module SpreadGather {
  import opened Strings
  import opened OrderedDict
  import opened Values
  import opened Gather

  class GatherService {
    const cfg: Settings
    var collecting: Dict<string, Collecting>
    var refused: Dict<string, real>
    var notices: seq<Notice>

    constructor (cfg: Settings)
      ensures this.cfg == cfg && Now() == EMPTY && Bounded(Now(), cfg)
    {
      this.cfg := cfg;
      collecting, refused, notices := [], [], [];
    }

    function Now(): State
      reads this
    {
      State(collecting, refused, notices)
    }

    /** One call at clock reading `now`: state and answer are those of `Process`. */
    method Process(now: real, input: Value) returns (output: Value)
      requires Bounded(Now(), cfg)
      modifies this
      ensures Bounded(Now(), cfg)
      ensures (Now(), output) == Gather.Process(old(Now()), cfg, now, input)
    {
      ProcessBounded(Now(), cfg, now, input);
      if cfg.bypass || PartOf(input).None? {
        return input;
      }
      LetGoBounded(Now(), cfg, now);
      LetGoOfStale(now);
      output := TakePart(now, PartOf(input).value);
    }

    method TakePart(now: real, p: Part) returns (output: Value)
      requires Bounded(Now(), cfg) && p.index < p.total
      modifies this
      ensures (Now(), output) == Take(old(Now()), cfg, now, p)
    {
      if Has(refused, p.group) {
        return Null;
      }
      if !Has(collecting, p.group) && |collecting| >= cfg.maxGroups {
        RefuseGroup(p.group, now, TooManyGroups);
        return Null;
      }
      var c := Held(Now(), p, now);
      if c.total != p.total {
        RefuseGroup(p.group, now, TotalsDiffer(c.total, p.total));
        return Null;
      }
      if p.index in c.items {
        return Null;
      }
      if c.bytes + SizeOf(cfg, p.item) > cfg.maxBytes {
        RefuseGroup(p.group, now, TooLarge);
        return Null;
      }
      HeldIsBounded(Now(), cfg, p, now);
      c := Added(cfg, c, p);
      FullRange(c.items.Keys, p.total);
      collecting := Put(collecting, p.group, c);
      notices := notices + [Progress(p.group, |c.items|, p.total, |collecting|)];
      if |c.items| < p.total {
        return Null;
      }
      collecting := Remove(collecting, p.group);
      output := Made(cfg, p.group, Ordered(c.items, p.total));
    }

    method RefuseGroup(group: string, now: real, reason: Reason)
      modifies this
      requires |refused| <= MAX_REFUSED
      ensures Now() == Refuse(old(Now()), group, now, reason)
    {
      collecting := Remove(collecting, group);
      refused := Put(refused, group, now);
      ghost var left, all := collecting, refused;
      while |refused| > MAX_REFUSED
        invariant Shorten(refused) == Shorten(all) && notices == old(notices) && collecting == left
      {
        ForgetsOldest(refused);
        refused := refused[1..];
      }
      notices := notices + [Refused(group, reason, |collecting|)];
    }

    method LetGoOfStale(now: real)
      modifies this
      requires Unique(collecting) && Unique(refused)
      ensures Now() == LetGo(old(Now()), cfg, now)
    {
      var all := collecting;
      LettingGoEnds(all, notices, cfg, now);
      for i := 0 to |all|
        invariant refused == old(refused)
        invariant LettingGo(collecting, notices, all[i..], cfg, now) == LettingGo(old(collecting), old(notices), all, cfg, now)
      {
        assert all[i..][0] == all[i] && all[i..][1..] == all[i + 1..];
        if Stale(cfg, now, all[i].value.startedAt) {
          collecting := Remove(collecting, all[i].key);
          notices := notices + [TimedOut(all[i].key, |all[i].value.items|, all[i].value.total, |collecting|)];
        }
      }
      refused := Keep(refused, Recent(cfg, now));
    }
  }

  /** The loop over the groups there were: each stale one is taken out, and told. */
  function LettingGo(collecting: Dict<string, Collecting>, notices: seq<Notice>, groups: Dict<string, Collecting>,
                     cfg: Settings, now: real): (Dict<string, Collecting>, seq<Notice>)
    decreases |groups|
  {
    if groups == [] then (collecting, notices)
    else if Stale(cfg, now, groups[0].value.startedAt) then
      var left, c := Remove(collecting, groups[0].key), groups[0].value;
      LettingGo(left, notices + [TimedOut(groups[0].key, |c.items|, c.total, |left|)], groups[1..], cfg, now)
    else LettingGo(collecting, notices, groups[1..], cfg, now)
  }

  lemma LettingGoEnds(all: Dict<string, Collecting>, notices: seq<Notice>, cfg: Settings, now: real)
    requires Unique(all)
    ensures LettingGo(all, notices, all, cfg, now) ==
            (Keep(all, Arriving(cfg, now)), notices + TimeoutNotices(all, cfg, now, |all|))
  {
    assert all[..0] == [] && all[0..] == all;
    assert [] + all == all;
    LettingGoFrom(all, 0, notices, cfg, now);
  }

  lemma LettingGoNext(collecting: Dict<string, Collecting>, notices: seq<Notice>, e: Entry<string, Collecting>,
                      rest: Dict<string, Collecting>, cfg: Settings, now: real)
    ensures LettingGo(collecting, notices, [e] + rest, cfg, now) ==
            if Stale(cfg, now, e.value.startedAt) then
              var left := Remove(collecting, e.key);
              LettingGo(left, notices + [TimedOut(e.key, |e.value.items|, e.value.total, |left|)], rest, cfg, now)
            else LettingGo(collecting, notices, rest, cfg, now)
  {
    assert ([e] + rest)[1..] == rest;
  }

  lemma {:induction false} LettingGoFrom(all: Dict<string, Collecting>, i: nat, notices: seq<Notice>, cfg: Settings, now: real)
    requires Unique(all) && i <= |all|
    ensures var d := Keep(all[..i], Arriving(cfg, now)) + all[i..];
            LettingGo(d, notices, all[i..], cfg, now) ==
            (Keep(all, Arriving(cfg, now)), notices + TimeoutNotices(all[i..], cfg, now, |d|))
    decreases |all| - i
  {
    var d := Keep(all[..i], Arriving(cfg, now)) + all[i..];
    if i == |all| {
      assert all[..i] == all && all[i..] == [];
      assert d == Keep(all, Arriving(cfg, now)) && notices + [] == notices;
    } else {
      var e, rest := all[i], all[i + 1..];
      assert all[i..] == [e] + rest && all[i..][1..] == rest;
      LettingGoNext(d, notices, e, rest, cfg, now);
      StaleStep(all, i, cfg, now);
      NoticesStep(notices, all[i..], cfg, now, |d|);
      if Stale(cfg, now, e.value.startedAt) {
        LettingGoFrom(all, i + 1, notices + [TimedOut(e.key, |e.value.items|, e.value.total, |d| - 1)], cfg, now);
      } else {
        LettingGoFrom(all, i + 1, notices, cfg, now);
      }
    }
  }

  lemma NoticesStep(notices: seq<Notice>, d: Dict<string, Collecting>, cfg: Settings, now: real, pending: nat)
    requires d != [] && |d| <= pending
    ensures notices + TimeoutNotices(d, cfg, now, pending) ==
            if Stale(cfg, now, d[0].value.startedAt)
            then notices + [TimedOut(d[0].key, |d[0].value.items|, d[0].value.total, pending - 1)]
                 + TimeoutNotices(d[1..], cfg, now, pending - 1)
            else notices + TimeoutNotices(d[1..], cfg, now, pending)
  {
  }

  /** Looking at one more group: a stale one is taken out of what is left, and
      one still arriving stays. */
  lemma StaleStep(all: Dict<string, Collecting>, i: nat, cfg: Settings, now: real)
    requires Unique(all) && i < |all|
    ensures var kept, kept' := Keep(all[..i], Arriving(cfg, now)), Keep(all[..i + 1], Arriving(cfg, now));
            if Stale(cfg, now, all[i].value.startedAt)
            then Remove(kept + all[i..], all[i].key) == kept' + all[i + 1..] && |kept'| == |kept|
            else kept + all[i..] == kept' + all[i + 1..]
  {
    var kept := Keep(all[..i], Arriving(cfg, now));
    assert all[..i + 1] == all[..i] + [all[i]] && all[i..] == [all[i]] + all[i + 1..];
    KeepAppend(all[..i], all[i], Arriving(cfg, now));
    FindAfterKept(all, i, cfg, now);
    if Stale(cfg, now, all[i].value.startedAt) {
      var d := kept + all[i..];
      assert d[..|kept|] == kept && d[|kept| + 1..] == all[i + 1..];
    }
  }

  /** A key not yet looked at is found right after what was kept. */
  lemma FindAfterKept(all: Dict<string, Collecting>, i: nat, cfg: Settings, now: real)
    requires Unique(all) && i < |all|
    ensures var kept := Keep(all[..i], Arriving(cfg, now));
            Find(kept + all[i..], all[i].key) == |kept|
  {
    var kept := Keep(all[..i], Arriving(cfg, now));
    KeepIn(all[..i], Arriving(cfg, now));
    var d := kept + all[i..];
    assert d[|kept|] == all[i];
    forall j | 0 <= j < |kept|
      ensures d[j].key != all[i].key
    {
      assert kept[j] in all[..i];
    }
  }

  // ── What Spread sends on, arriving in order ───────────────────────────────

  function PartValue(item: Value, group: string, index: nat, total: nat): Value {
    Value.Dict(map["item" := item, "group" := Str(group), "index" := Int(index), "total" := Int(total)])
  }

  /** The items of a value: a list's, or the value itself as a list of one. */
  function ItemsOf(input: Value, itemsFrom: string): seq<Value> {
    var source := if itemsFrom != "" then ValueAt(input, itemsFrom) else input;
    if source.Null? then [] else if source.List? then source.items else [source]
  }

  /** What the path leads to is sent: a list item by item, nothing of Null or of
      a path that leads nowhere, anything else as one item. */
  lemma ItemsSent(input: Value, steps: seq<string>, source: Value)
    requires forall i | 0 <= i < |steps| :: Free(steps[i], '.')
    requires steps == [] || Join(steps, '.') != ""
    requires Reaches(input, steps, source) || (source == Null && LeadsNowhere(input, steps))
    ensures var items := ItemsOf(input, Join(steps, '.'));
            && (source == Null ==> items == [])
            && (source.List? ==> items == source.items)
            && (source != Null && !source.List? ==> items == [source])
  {
    if steps == [] {
      assert Reaches(input, [], input);
    } else {
      ValueAtReaches(input, steps, source);
    }
  }

  function Weight(cfg: Settings, items: seq<Value>): nat {
    if items == [] then 0 else Weight(cfg, items[..|items| - 1]) + SizeOf(cfg, items[|items| - 1])
  }

  lemma {:induction false} WeightGrows(cfg: Settings, items: seq<Value>, k: nat)
    requires k <= |items|
    ensures Weight(cfg, items[..k]) <= Weight(cfg, items)
    decreases |items|
  {
    if k < |items| {
      WeightGrows(cfg, items[..|items| - 1], k);
      assert items[..|items| - 1][..k] == items[..k];
    } else {
      assert items[..k] == items;
    }
  }

  /** The first `k` items are held, and nothing else of the group. */
  ghost predicate Collected(s: State, cfg: Settings, group: string, items: seq<Value>, k: nat, start: real) {
    && k < |items| && !Has(s.refused, group)
    && Get(s.collecting, group) ==
       if k == 0 then None
       else Some(Collecting(map i: nat | i < k :: items[i], |items|, Weight(cfg, items[..k]), start))
  }

  /** The group was refused, and its parts are turned away until that is old. */
  ghost predicate GivenUp(s: State, group: string, start: real) {
    Has(s.refused, group) && Get(s.refused, group).value >= start
  }

  predicate InTime(cfg: Settings, start: real, now: real) { start <= now && Lasts(cfg, now, start) }

  lemma PartOfPartValue(item: Value, group: string, index: nat, total: nat)
    requires index < total && 0 < |group| <= MAX_GROUP_LENGTH
    ensures PartOf(PartValue(item, group, index, total)) == Some(Part(group, index, total, item))
  {
  }

  lemma LetGoCollected(s: State, cfg: Settings, now: real, group: string, items: seq<Value>, k: nat, start: real)
    requires Bounded(s, cfg) && Collected(s, cfg, group, items, k, start) && InTime(cfg, start, now)
    ensures Collected(LetGo(s, cfg, now), cfg, group, items, k, start)
  {
    GetKeep(s.collecting, Arriving(cfg, now), group);
    GetKeep(s.refused, Recent(cfg, now), group);
  }

  lemma AddsNext(s: State, cfg: Settings, now: real, group: string, items: seq<Value>, k: nat, start: real)
    requires Collected(s, cfg, group, items, k, start) && (k == 0 ==> start == now)
    ensures var p := Part(group, k, |items|, items[k]);
            Added(cfg, Held(s, p, now), p) ==
            Collecting(map i: nat | i < k + 1 :: items[i], |items|, Weight(cfg, items[..k + 1]), start)
  {
    assert items[..k + 1][..k] == items[..k];
  }

  /** A part that fits, of a group there is room for, but not the last. */
  lemma TakeFitting(s: State, cfg: Settings, now: real, group: string, items: seq<Value>, k: nat, start: real)
    requires Bounded(s, cfg) && Collected(s, cfg, group, items, k, start) && k + 1 < |items|
    requires (k == 0 ==> start == now && |s.collecting| < cfg.maxGroups) && Weight(cfg, items[..k + 1]) <= cfg.maxBytes
    ensures var (t, output) := Take(s, cfg, now, Part(group, k, |items|, items[k]));
            output == Null && Collected(t, cfg, group, items, k + 1, start)
  {
    var p := Part(group, k, |items|, items[k]);
    AddsNext(s, cfg, now, group, items, k, start);
    CountUpTo(items, k + 1);
    GetPut(s.collecting, group, Added(cfg, Held(s, p, now), p), group);
  }

  /** The last part, when it fits. */
  lemma TakeLast(s: State, cfg: Settings, now: real, group: string, items: seq<Value>, k: nat, start: real)
    requires Bounded(s, cfg) && Collected(s, cfg, group, items, k, start) && k + 1 == |items|
    requires (k == 0 ==> start == now && |s.collecting| < cfg.maxGroups) && Weight(cfg, items[..k + 1]) <= cfg.maxBytes
    ensures var (t, output) := Take(s, cfg, now, Part(group, k, |items|, items[k]));
            output == Made(cfg, group, items) && Get(t.collecting, group) == None && !Has(t.refused, group)
  {
    var p := Part(group, k, |items|, items[k]);
    AddsNext(s, cfg, now, group, items, k, start);
    AllInOrder(items);
    assert items[..k + 1] == items;
    TakeCompleting(s, cfg, now, p);
    GetRemove(s.collecting, group, group);
  }

  lemma TakeCompleting(s: State, cfg: Settings, now: real, p: Part)
    requires Bounded(s, cfg) && p.index < p.total && !Has(s.refused, p.group)
    requires Has(s.collecting, p.group) || |s.collecting| < cfg.maxGroups
    requires var c := Held(s, p, now);
             c.total == p.total && p.index !in c.items && c.bytes + SizeOf(cfg, p.item) <= cfg.maxBytes
    requires |Added(cfg, Held(s, p, now), p).items| >= p.total
    ensures var (t, output) := Take(s, cfg, now, p);
            var items := Added(cfg, Held(s, p, now), p).items;
            && t.collecting == Remove(s.collecting, p.group) && t.refused == s.refused
            && (forall i | 0 <= i < p.total :: i in items) && output == Made(cfg, p.group, Ordered(items, p.total))
  {
    var c := Added(cfg, Held(s, p, now), p);
    HeldIsBounded(s, cfg, p, now);
    FullRange(c.items.Keys, p.total);
    RemovePut(s.collecting, p.group, c);
  }

  lemma AllInOrder(items: seq<Value>)
    ensures var m := map i: nat | i < |items| :: items[i];
            |m| == |items| && (forall i | 0 <= i < |items| :: i in m) && Ordered(m, |items|) == items
  {
    CountUpTo(items, |items|);
  }

  /** The next part of a group that still fits, or that does not. */
  lemma TakeNext(s: State, cfg: Settings, now: real, group: string, items: seq<Value>, k: nat, start: real)
    requires Bounded(s, cfg) && Collected(s, cfg, group, items, k, start) && start <= now
    requires k == 0 ==> start == now
    ensures var (t, output) := Take(s, cfg, now, Part(group, k, |items|, items[k]));
            if (k == 0 && |s.collecting| >= cfg.maxGroups) || Weight(cfg, items[..k + 1]) > cfg.maxBytes
            then output == Null && GivenUp(t, group, start)
            else if k + 1 < |items| then output == Null && Collected(t, cfg, group, items, k + 1, start)
            else output == Made(cfg, group, items) && Get(t.collecting, group) == None && !Has(t.refused, group)
  {
    assert items[..k + 1][..k] == items[..k];
    if (k == 0 && |s.collecting| >= cfg.maxGroups) {
      RefusalHolds(s, group, now, TooManyGroups);
    } else if Weight(cfg, items[..k + 1]) > cfg.maxBytes {
      RefusalHolds(s, group, now, TooLarge);
    } else if k + 1 < |items| {
      TakeFitting(s, cfg, now, group, items, k, start);
    } else {
      TakeLast(s, cfg, now, group, items, k, start);
    }
  }

  lemma LastIsFound(d: Dict<string, real>)
    requires Unique(d) && d != []
    ensures Find(d, d[|d| - 1].key) == |d| - 1
  {
  }

  lemma EndIsUnique(d: Dict<string, real>, from: nat)
    requires Unique(d) && from <= |d|
    ensures Unique(d[from..])
  {
  }

  lemma ShortenUnique(d: Dict<string, real>)
    requires Unique(d)
    ensures Unique(Shorten(d)) && (d != [] ==> Shorten(d) != [] && Shorten(d)[|Shorten(d)| - 1] == d[|d| - 1])
  {
    var from := if |d| > MAX_REFUSED then |d| - MAX_REFUSED else 0;
    EndIsUnique(d, from);
    assert Shorten(d) == d[from..];
  }

  lemma RefusalHolds(s: State, group: string, now: real, reason: Reason)
    requires Unique(s.refused) && !Has(s.refused, group)
    ensures GivenUp(Refuse(s, group, now, reason), group, now)
  {
    GetPut(s.refused, group, now, group);
    ShortenUnique(s.refused + [Entry(group, now)]);
    LastIsFound(Shorten(s.refused + [Entry(group, now)]));
  }

  lemma {:induction false} CountUpTo(items: seq<Value>, k: nat)
    requires k <= |items|
    ensures |map i: nat | i < k :: items[i]| == k
  {
    var m := map i: nat | i < k :: items[i];
    assert m.Keys == Range(k);
    assert |m| == |m.Keys|;
  }

  lemma SendNext(s: State, cfg: Settings, now: real, group: string, items: seq<Value>, k: nat, start: real)
    requires Bounded(s, cfg) && Collected(s, cfg, group, items, k, start) && InTime(cfg, start, now)
    requires !cfg.bypass && 0 < |group| <= MAX_GROUP_LENGTH && (k == 0 ==> start == now)
    ensures var (t, output) := Gather.Process(s, cfg, now, PartValue(items[k], group, k, |items|));
            if (k == 0 && |LetGo(s, cfg, now).collecting| >= cfg.maxGroups) || Weight(cfg, items[..k + 1]) > cfg.maxBytes
            then output == Null && GivenUp(t, group, start)
            else if k + 1 < |items| then output == Null && Collected(t, cfg, group, items, k + 1, start)
            else output == Made(cfg, group, items) && Get(t.collecting, group) == None && !Has(t.refused, group)
  {
    PartOfPartValue(items[k], group, k, |items|);
    LetGoBounded(s, cfg, now);
    LetGoCollected(s, cfg, now, group, items, k, start);
    TakeNext(LetGo(s, cfg, now), cfg, now, group, items, k, start);
  }

  lemma SendGivenUp(s: State, cfg: Settings, now: real, group: string, items: seq<Value>, k: nat, start: real)
    requires Bounded(s, cfg) && GivenUp(s, group, start) && InTime(cfg, start, now) && k < |items|
    requires !cfg.bypass && 0 < |group| <= MAX_GROUP_LENGTH
    ensures var (t, output) := Gather.Process(s, cfg, now, PartValue(items[k], group, k, |items|));
            output == Null && GivenUp(t, group, start)
  {
    PartOfPartValue(items[k], group, k, |items|);
    LetGoBounded(s, cfg, now);
    GetKeep(s.refused, Recent(cfg, now), group);
  }

  /** How things stand after `k` parts, `roomy` telling whether there was room
      for the group when the first one came. */
  ghost predicate Sent(s: State, cfg: Settings, group: string, items: seq<Value>, k: nat, start: real, roomy: bool) {
    && k <= |items|
    && if k == 0 || (roomy && Weight(cfg, items[..k]) <= cfg.maxBytes)
       then if k < |items| then Collected(s, cfg, group, items, k, start) else !Has(s.collecting, group)
       else GivenUp(s, group, start)
  }

  lemma SendStep(s: State, cfg: Settings, now: real, group: string, items: seq<Value>, k: nat, start: real, roomy: bool)
    requires Bounded(s, cfg) && k < |items| && Sent(s, cfg, group, items, k, start, roomy) && InTime(cfg, start, now)
    requires !cfg.bypass && 0 < |group| <= MAX_GROUP_LENGTH
    requires k == 0 ==> start == now && roomy == (|LetGo(s, cfg, now).collecting| < cfg.maxGroups)
    ensures var (t, output) := Gather.Process(s, cfg, now, PartValue(items[k], group, k, |items|));
            && Sent(t, cfg, group, items, k + 1, start, roomy)
            && output == if k + 1 == |items| && roomy && Weight(cfg, items) <= cfg.maxBytes then Made(cfg, group, items) else Null
  {
    WeightGrows(cfg, items[..k + 1], k);
    assert items[..k + 1][..k] == items[..k] && items[..|items|] == items;
    if k == 0 || (roomy && Weight(cfg, items[..k]) <= cfg.maxBytes) {
      SendNext(s, cfg, now, group, items, k, start);
    } else {
      SendGivenUp(s, cfg, now, group, items, k, start);
    }
  }

  lemma GivenUpIsNotCollected(s: State, cfg: Settings, group: string, start: real)
    requires Bounded(s, cfg) && GivenUp(s, group, start)
    ensures !Has(s.collecting, group)
  {
  }

  /** What has reached the outside after `k` items: nothing until the last, and
      then what Gather makes of the list, once, if it fits. A bypassed Gather lets
      every part through as it is. */
  function Delivered(cfg: Settings, items: seq<Value>, group: string, k: nat, fits: bool): seq<Value>
    requires k <= |items|
  {
    if cfg.bypass then seq(k, i requires 0 <= i < k => PartValue(items[i], group, i, |items|))
    else if items != [] && k == |items| && fits && Made(cfg, group, items) != Null then [Made(cfg, group, items)]
    else []
  }

  lemma DeliversNext(s: State, cfg: Settings, now: real, group: string, items: seq<Value>, k: nat, start: real, roomy: bool)
    requires Bounded(s, cfg) && k < |items| && InTime(cfg, start, now) && 0 < |group| <= MAX_GROUP_LENGTH
    requires !cfg.bypass ==> Sent(s, cfg, group, items, k, start, roomy)
    requires !cfg.bypass && k == 0 ==> start == now && roomy == (|LetGo(s, cfg, now).collecting| < cfg.maxGroups)
    ensures var (t, output) := Gather.Process(s, cfg, now, PartValue(items[k], group, k, |items|));
            var fits := roomy && Weight(cfg, items) <= cfg.maxBytes;
            && (if cfg.bypass then t == s else Sent(t, cfg, group, items, k + 1, start, roomy))
            && Delivered(cfg, items, group, k + 1, fits) ==
               Delivered(cfg, items, group, k, fits) + (if output != Null then [output] else [])
  {
    if !cfg.bypass {
      SendStep(s, cfg, now, group, items, k, start, roomy);
    }
  }

  /** How things stand after `k` of the items, and what has been emitted of them. */
  ghost predicate Going(s: State, cfg: Settings, group: string, items: seq<Value>, k: nat, start: real, roomy: bool,
                        before: seq<Value>, emitted: seq<Value>) {
    !Astray(s, cfg, group, items, k, start, roomy, before, emitted)
  }

  ghost predicate Astray(s: State, cfg: Settings, group: string, items: seq<Value>, k: nat, start: real, roomy: bool,
                         before: seq<Value>, emitted: seq<Value>) {
    || k > |items|
    || (if cfg.bypass || items == [] then Has(s.collecting, group) else !Sent(s, cfg, group, items, k, start, roomy))
    || emitted != before + Delivered(cfg, items, group, k, roomy && Weight(cfg, items) <= cfg.maxBytes)
  }

  lemma GoesOn(s: State, cfg: Settings, now: real, group: string, items: seq<Value>, k: nat, start: real, roomy: bool,
               before: seq<Value>, emitted: seq<Value>)
    requires Bounded(s, cfg) && k < |items| && InTime(cfg, start, now) && 0 < |group| <= MAX_GROUP_LENGTH
    requires Going(s, cfg, group, items, k, start, roomy, before, emitted)
    requires k == 0 ==> start == now && roomy == (|LetGo(s, cfg, now).collecting| < cfg.maxGroups)
    ensures var (t, output) := Gather.Process(s, cfg, now, PartValue(items[k], group, k, |items|));
            && Bounded(t, cfg)
            && Going(t, cfg, group, items, k + 1, start, roomy, before, emitted + (if output != Null then [output] else []))
  {
    var part := PartValue(items[k], group, k, |items|);
    ProcessBounded(s, cfg, now, part);
    DeliversNext(s, cfg, now, group, items, k, start, roomy);
    OneMore(before, Delivered(cfg, items, group, k, roomy && Weight(cfg, items) <= cfg.maxBytes),
            Gather.Process(s, cfg, now, part).1);
  }

  lemma GoneThrough(s: State, cfg: Settings, group: string, items: seq<Value>, start: real, roomy: bool,
                    before: seq<Value>, emitted: seq<Value>)
    requires Bounded(s, cfg) && Going(s, cfg, group, items, |items|, start, roomy, before, emitted)
    ensures !Has(s.collecting, group)
    ensures emitted == before + Delivered(cfg, items, group, |items|, roomy && Weight(cfg, items) <= cfg.maxBytes)
  {
    if !cfg.bypass && items != [] && GivenUp(s, group, start) {
      GivenUpIsNotCollected(s, cfg, group, start);
    }
  }

  lemma OneMore(before: seq<Value>, delivered: seq<Value>, output: Value)
    ensures before + delivered + (if output != Null then [output] else []) ==
            before + (delivered + (if output != Null then [output] else []))
  {
  }

  lemma GoingBegins(s: State, cfg: Settings, group: string, items: seq<Value>, start: real, roomy: bool, before: seq<Value>)
    requires !Has(s.collecting, group) && !Has(s.refused, group)
    ensures Going(s, cfg, group, items, 0, start, roomy, before, before)
  {
    assert before + [] == before;
  }

  // ── The runtime ───────────────────────────────────────────────────────────

  datatype Service = SpreadHere | GatherHere

  /** A runtime of two services. Run contexts are not part of it. */
  class Runtime {
    const order: seq<Service> := [SpreadHere, GatherHere]
    const spreadBypass: bool
    const itemsFrom: string
    var lastTotal: nat
    const gather: GatherService
    var emitted: seq<Value>

    constructor (spreadBypass: bool, itemsFrom: string, gather: GatherService)
      ensures this.spreadBypass == spreadBypass && this.itemsFrom == itemsFrom && this.gather == gather
      ensures emitted == []
    {
      this.spreadBypass, this.itemsFrom, this.gather := spreadBypass, itemsFrom, gather;
      lastTotal, emitted := 0, [];
    }

    /** Whether the whole list will be let through: there is room for one more
        group when the first part arrives, and the items weigh little enough. */
    ghost predicate Fits(items: seq<Value>, start: real)
      reads gather
    {
      |LetGo(gather.Now(), gather.cfg, start).collecting| < gather.cfg.maxGroups && Weight(gather.cfg, items) <= gather.cfg.maxBytes
    }

    /** The readings the clock gives, one for each part: they take no longer than
        the timeout. */
    ghost predicate Prompt(clock: seq<real>)
      reads gather
    {
      forall i | 0 <= i < |clock| :: InTime(gather.cfg, clock[0], clock[i])
    }

    /** Nothing is known of the group: what a drawn UUID is for. */
    ghost predicate NewGroup(group: string)
      reads gather
    {
      0 < |group| <= MAX_GROUP_LENGTH && !Has(gather.collecting, group) && !Has(gather.refused, group)
    }

    /** A pass through Spread and Gather, a group's name and clock readings
        being drawn as it goes. A list put into Spread comes out of Gather
        exactly once, through the calls Spread makes back into the runtime, if it
        fits, and not at all if it does not; the pass itself returns nothing. */
    method Process(input: Value, group: string, clock: seq<real>) returns (result: Value)
      requires Bounded(gather.Now(), gather.cfg) && NewGroup(group)
      requires Prompt(clock) && |clock| > |ItemsOf(input, itemsFrom)|
      modifies this, gather
      ensures Bounded(gather.Now(), gather.cfg)
      ensures spreadBypass ==>
                (gather.Now(), result) == Gather.Process(old(gather.Now()), gather.cfg, clock[0], input) && emitted == old(emitted)
      ensures !spreadBypass ==>
                && result == Null && !Has(gather.collecting, group)
                && var items := ItemsOf(input, itemsFrom);
                   emitted == old(emitted) + Delivered(gather.cfg, items, group, |items|, old(Fits(items, clock[0])))
    {
      result := ProcessFromIndex(0, input, group, clock);
    }

    method ProcessFromIndex(start: nat, input: Value, group: string, clock: seq<real>) returns (result: Value)
      requires start <= |order| && Bounded(gather.Now(), gather.cfg) && clock != []
      requires start == 0 ==> NewGroup(group) && Prompt(clock) && |clock| > |ItemsOf(input, itemsFrom)|
      modifies this, gather
      ensures Bounded(gather.Now(), gather.cfg)
      ensures start == 1 || (start == 0 && spreadBypass) ==>
                (gather.Now(), result) == Gather.Process(old(gather.Now()), gather.cfg, clock[0], input) && emitted == old(emitted)
      ensures start > 0 ==> lastTotal == old(lastTotal)
      ensures start == 0 && !spreadBypass ==>
                && result == Null && !Has(gather.collecting, group)
                && var items := ItemsOf(input, itemsFrom);
                   emitted == old(emitted) + Delivered(gather.cfg, items, group, |items|, old(Fits(items, clock[0])))
      decreases |order| - start, 1
    {
      result := input;
      for i := start to |order|
        invariant i == start || (i == 1 && spreadBypass) ==> result == input && unchanged(gather) && emitted == old(emitted)
        invariant i == 1 && start == 0 ==> spreadBypass
        invariant start > 0 ==> lastTotal == old(lastTotal)
        invariant i == 2 && start < 2 ==>
          (gather.Now(), result) == Gather.Process(old(gather.Now()), gather.cfg, clock[0], input) && emitted == old(emitted)
        invariant i == 2 && start == 0 ==> spreadBypass
        invariant Bounded(gather.Now(), gather.cfg)
      {
        if order[i] == SpreadHere {
          result := SpreadItems(result, group, clock);
        } else {
          result := gather.Process(clock[0], result);
        }
        if result == Null { break; }
      }
    }

    /** Spread's own call: each item is sent on through the services after it. */
    method SpreadItems(input: Value, group: string, clock: seq<real>) returns (result: Value)
      requires Bounded(gather.Now(), gather.cfg) && NewGroup(group)
      requires Prompt(clock) && |clock| > |ItemsOf(input, itemsFrom)|
      modifies this, gather
      ensures Bounded(gather.Now(), gather.cfg)
      ensures spreadBypass ==> result == input && unchanged(this) && unchanged(gather)
      ensures !spreadBypass ==>
                && result == Null && !Has(gather.collecting, group)
                && var items := ItemsOf(input, itemsFrom);
                   && emitted == old(emitted) + Delivered(gather.cfg, items, group, |items|, old(Fits(items, clock[0])))
                   && lastTotal == if items != [] then |items| else old(lastTotal)
      decreases |order|, 0
    {
      if spreadBypass {
        return input;
      }
      var items := ItemsOf(input, itemsFrom);
      var total := |items|;
      ghost var start, before := clock[0], emitted;
      ghost var roomy := |LetGo(gather.Now(), gather.cfg, start).collecting| < gather.cfg.maxGroups;
      GoingBegins(gather.Now(), gather.cfg, group, items, start, roomy, emitted);
      for index := 0 to total
        invariant Bounded(gather.Now(), gather.cfg) && lastTotal == old(lastTotal)
        invariant index == 0 ==> gather.Now() == old(gather.Now())
        invariant Going(gather.Now(), gather.cfg, group, items, index, start, roomy, before, emitted)
      {
        SendItem(items, group, index, clock[index], start, roomy, before);
      }
      if items != [] {
        lastTotal := total;
      }
      GoneThrough(gather.Now(), gather.cfg, group, items, start, roomy, before, emitted);
      result := Null;
    }

    /** One item, through the services after Spread; what they make of it goes
        outside. */
    method SendItem(items: seq<Value>, group: string, index: nat, now: real,
                    ghost start: real, ghost roomy: bool, ghost before: seq<Value>)
      requires Bounded(gather.Now(), gather.cfg) && index < |items| && 0 < |group| <= MAX_GROUP_LENGTH
      requires InTime(gather.cfg, start, now)
      requires index == 0 ==> start == now && roomy == (|LetGo(gather.Now(), gather.cfg, now).collecting| < gather.cfg.maxGroups)
      requires Going(gather.Now(), gather.cfg, group, items, index, start, roomy, before, emitted)
      modifies this, gather
      ensures Bounded(gather.Now(), gather.cfg) && lastTotal == old(lastTotal)
      ensures Going(gather.Now(), gather.cfg, group, items, index + 1, start, roomy, before, emitted)
      decreases |order| - 1, 3
    {
      GoesOn(gather.Now(), gather.cfg, now, group, items, index, start, roomy, before, emitted);
      var output := ProcessFrom(SpreadHere, PartValue(items[index], group, index, |items|), now);
      if output != Null {
        emitted := emitted + [output];
      } else {
        assert emitted + [] == emitted;
      }
    }

    method ProcessFrom(after: Service, data: Value, now: real) returns (result: Value)
      requires Bounded(gather.Now(), gather.cfg) && after == SpreadHere
      modifies this, gather
      ensures Bounded(gather.Now(), gather.cfg) && emitted == old(emitted) && lastTotal == old(lastTotal)
      ensures (gather.Now(), result) == Gather.Process(old(gather.Now()), gather.cfg, now, data)
      decreases |order| - 1, 2
    {
      result := ProcessFromIndex(1, data, "", [now]);
    }
  }
}
