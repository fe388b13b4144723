/** What a part that arrives makes of the other groups and of the refusals, by
    their age in milliseconds, and what is told of it. */
module GatherTimeouts {
  import opened Strings
  import opened OrderedDict
  import opened Values
  import opened Gather
  import opened GatherRuns

  /** The entries of a dictionary still remembered, and those let go of. */
  function Lasting(d: Dict<string, real>, cfg: Settings, now: real): Dict<string, real> {
    if d == [] then [] else (if Lasts(cfg, now, d[0].value) then [d[0]] else []) + Lasting(d[1..], cfg, now)
  }

  function Late(d: Dict<string, Collecting>, cfg: Settings, now: real): Dict<string, Collecting> {
    if d == [] then []
    else (if Lasts(cfg, now, d[0].value.startedAt) then [] else [d[0]]) + Late(d[1..], cfg, now)
  }

  /** The call of a part that is not let past, and the states around it. */
  predicate Arrives(cfg: Settings, input: Value) { !cfg.bypass && PartOf(input).Some? }

  // ── Groups ────────────────────────────────────────────────────────────────

  lemma LetGoGroups(s: State, cfg: Settings, now: real, group: string)
    requires Bounded(s, cfg)
    ensures Get(LetGo(s, cfg, now).collecting, group) ==
            if Has(s.collecting, group) && Lasts(cfg, now, Get(s.collecting, group).value.startedAt)
            then Get(s.collecting, group) else None
  {
    GetKeep(s.collecting, Arriving(cfg, now), group);
  }

  /** Every other group is still held exactly if it began at most `timeoutMs`
      milliseconds ago, and then as it was. */
  lemma OtherGroupsTimeOut(s: State, cfg: Settings, now: real, input: Value, group: string)
    requires Bounded(s, cfg) && Arrives(cfg, input) && group != PartOf(input).value.group
    ensures Get(Process(s, cfg, now, input).0.collecting, group) ==
            if && Has(s.collecting, group)
               && (now - Get(s.collecting, group).value.startedAt) * 1000.0 <= cfg.timeoutMs as real
            then Get(s.collecting, group) else None
  {
    LetGoBounded(s, cfg, now);
    LetGoGroups(s, cfg, now, group);
    OthersApart(LetGo(s, cfg, now), cfg, now, PartOf(input).value, group);
  }

  /** A part of a group past its timeout begins the group anew: what is held of
      it then is that part alone. */
  lemma LateGroupBeginsAnew(s: State, cfg: Settings, now: real, input: Value)
    requires Bounded(s, cfg) && Arrives(cfg, input) && Has(s.collecting, PartOf(input).value.group)
    requires (now - Get(s.collecting, PartOf(input).value.group).value.startedAt) * 1000.0 > cfg.timeoutMs as real
    ensures var p, t := PartOf(input).value, Process(s, cfg, now, input).0;
            Has(t.collecting, p.group) ==>
              Get(t.collecting, p.group) == Some(Collecting(map[p.index := p.item], p.total, SizeOf(cfg, p.item), now))
  {
    var p, u := PartOf(input).value, LetGo(s, cfg, now);
    LetGoBounded(s, cfg, now);
    LetGoGroups(s, cfg, now, p.group);
    var c' := Added(cfg, Held(u, p, now), p);
    GetPut(u.collecting, p.group, c', p.group);
    GetRemove(u.collecting, p.group, p.group);
    RemovePut(u.collecting, p.group, c');
  }

  // ── Refusals ──────────────────────────────────────────────────────────────

  lemma {:induction false} KeepIsLasting(d: Dict<string, real>, cfg: Settings, now: real)
    ensures Keep(d, Recent(cfg, now)) == Lasting(d, cfg, now)
  {
    if d != [] {
      KeepIsLasting(d[1..], cfg, now);
    }
  }

  lemma TakeRefuses(s: State, cfg: Settings, now: real, p: Part)
    requires Bounded(s, cfg) && p.index < p.total
    ensures var t := Take(s, cfg, now, p).0;
            t.refused == s.refused || (!Has(s.refused, p.group) && t.refused == Shorten(s.refused + [Entry(p.group, now)]))
  {
  }

  lemma ProcessRefuses(s: State, cfg: Settings, now: real, input: Value)
    requires Bounded(s, cfg) && Arrives(cfg, input)
    ensures var p, t, lasting := PartOf(input).value, Process(s, cfg, now, input).0, Lasting(s.refused, cfg, now);
            || t.refused == lasting
            || (!Has(lasting, p.group) && t.refused == Shorten(lasting + [Entry(p.group, now)]))
  {
    LetGoBounded(s, cfg, now);
    KeepIsLasting(s.refused, cfg, now);
    TakeRefuses(LetGo(s, cfg, now), cfg, now, PartOf(input).value);
  }

  /** A refusal more, the first of 1025 forgotten. */
  function Joined(refused: Dict<string, real>, e: Entry<string, real>): Dict<string, real> {
    (if |refused| < 1024 then refused else refused[1..]) + [e]
  }

  lemma ShortenJoined(refused: Dict<string, real>, e: Entry<string, real>)
    requires |refused| <= 1024
    ensures Shorten(refused + [e]) == Joined(refused, e)
  {
    if |refused| == 1024 {
      assert (refused + [e])[1..] == refused[1..] + [e];
    }
  }

  lemma {:induction false} LastingFewer(d: Dict<string, real>, cfg: Settings, now: real)
    ensures |Lasting(d, cfg, now)| <= |d|
  {
    if d != [] {
      LastingFewer(d[1..], cfg, now);
    }
  }

  /** The refusals after a part are those that lasted, in their order, and the
      one of this part's group where it is refused now. The first of them is
      forgotten exactly if they would be 1025. */
  lemma RefusalsTimeOut(s: State, cfg: Settings, now: real, input: Value)
    requires Bounded(s, cfg) && Arrives(cfg, input)
    ensures var p, t, lasting := PartOf(input).value, Process(s, cfg, now, input).0, Lasting(s.refused, cfg, now);
            || t.refused == lasting
            || (!Has(lasting, p.group) && t.refused == Joined(lasting, Entry(p.group, now)))
  {
    ProcessRefuses(s, cfg, now, input);
    LastingFewer(s.refused, cfg, now);
    ShortenJoined(Lasting(s.refused, cfg, now), Entry(PartOf(input).value.group, now));
  }

  /** The call forgot the refusal because of its limit. */
  predicate Forgotten(s: State, cfg: Settings, now: real, input: Value, group: string)
    requires Bounded(s, cfg) && PartOf(input).Some?
  {
    var lasting := Lasting(s.refused, cfg, now);
    && |lasting| == 1024 && lasting[0].key == group
    && !Has(lasting, PartOf(input).value.group)
    && Has(Process(s, cfg, now, input).0.refused, PartOf(input).value.group)
  }

  /** Group by group: another group is still refused exactly if it was refused
      at most `timeoutMs` milliseconds ago and the limit did not forget it. */
  lemma OtherRefusalsTimeOut(s: State, cfg: Settings, now: real, input: Value, group: string)
    requires Bounded(s, cfg) && Arrives(cfg, input) && group != PartOf(input).value.group
    ensures Get(Process(s, cfg, now, input).0.refused, group) ==
            if && Has(s.refused, group)
               && (now - Get(s.refused, group).value) * 1000.0 <= cfg.timeoutMs as real
               && !Forgotten(s, cfg, now, input, group)
            then Get(s.refused, group) else None
  {
    var p, t, lasting := PartOf(input).value, Process(s, cfg, now, input).0, Lasting(s.refused, cfg, now);
    RefusalsTimeOut(s, cfg, now, input);
    KeepIsLasting(s.refused, cfg, now);
    KeepUnique(s.refused, Recent(cfg, now));
    GetKeep(s.refused, Recent(cfg, now), group);
    if t.refused != lasting {
      JoinedGet(lasting, Entry(p.group, now), group);
      JoinedGet(lasting, Entry(p.group, now), p.group);
    }
  }

  lemma JoinedGet(refused: Dict<string, real>, e: Entry<string, real>, k: string)
    requires Unique(refused) && !Has(refused, e.key)
    ensures Get(Joined(refused, e), k) ==
            if k == e.key then Some(e.value)
            else if |refused| >= 1024 && refused[0].key == k then None
            else Get(refused, k)
  {
    if |refused| < 1024 {
      GetAppend(refused, e, k);
    } else {
      var rest := refused[1..];
      assert refused == [refused[0]] + rest;
      GetCons(refused[0], rest, k);
      GetCons(refused[0], rest, e.key);
      GetAppend(rest, e, k);
      assert refused[0].key == k ==> !Has(rest, k);
    }
  }

  lemma {:induction false} GetAppend<V>(d: Dict<string, V>, e: Entry<string, V>, k: string)
    ensures Get(d + [e], k) == if Has(d, k) then Get(d, k) else if e.key == k then Some(e.value) else None
  {
    if d == [] {
      GetCons(e, d, k);
      assert [e] + d == d + [e];
    } else {
      GetAppend(d[1..], e, k);
      assert d + [e] == [d[0]] + (d[1..] + [e]) && d == [d[0]] + d[1..];
      GetCons(d[0], d[1..] + [e], k);
      GetCons(d[0], d[1..], k);
    }
  }

  // ── What is told ──────────────────────────────────────────────────────────

  /** What is told of the groups let go of, `pending` groups held before. */
  function Tellings(late: Dict<string, Collecting>, pending: nat): (ns: seq<Notice>)
    requires |late| <= pending
    ensures |ns| == |late|
  {
    seq(|late|, i requires 0 <= i < |late| =>
          TimedOut(late[i].key, |late[i].value.items|, late[i].value.total, pending - 1 - i))
  }

  lemma {:induction false} LateFewer(d: Dict<string, Collecting>, cfg: Settings, now: real)
    ensures |Late(d, cfg, now)| <= |d|
  {
    if d != [] {
      LateFewer(d[1..], cfg, now);
    }
  }

  lemma TellingsCons(e: Entry<string, Collecting>, late: Dict<string, Collecting>, pending: nat)
    requires |late| < pending
    ensures Tellings([e] + late, pending) ==
            [TimedOut(e.key, |e.value.items|, e.value.total, pending - 1)] + Tellings(late, pending - 1)
  {
    assert forall i | 0 <= i < |late| :: ([e] + late)[i + 1] == late[i];
  }

  lemma {:induction false} NoticesAreTellings(d: Dict<string, Collecting>, cfg: Settings, now: real, pending: nat)
    requires |d| <= pending
    ensures |Late(d, cfg, now)| <= pending
    ensures TimeoutNotices(d, cfg, now, pending) == Tellings(Late(d, cfg, now), pending)
  {
    LateFewer(d, cfg, now);
    if d != [] {
      var late, rest := Late(d, cfg, now), Late(d[1..], cfg, now);
      LateFewer(d[1..], cfg, now);
      if Lasts(cfg, now, d[0].value.startedAt) {
        NoticesAreTellings(d[1..], cfg, now, pending);
        assert late == rest;
      } else {
        NoticesAreTellings(d[1..], cfg, now, pending - 1);
        TellingsCons(d[0], rest, pending);
      }
    }
  }

  lemma TakeTells(s: State, cfg: Settings, now: real, p: Part)
    requires Bounded(s, cfg) && p.index < p.total
    ensures var t := Take(s, cfg, now, p).0;
            t.notices == s.notices || exists n: Notice :: !n.TimedOut? && t.notices == s.notices + [n]
  {
  }

  /** Each group let go of is told once, in the order the groups began, with
      what it had and the number of groups then left; after that at most one
      notice about the part itself. */
  lemma TimeoutsAreTold(s: State, cfg: Settings, now: real, input: Value)
    requires Bounded(s, cfg) && Arrives(cfg, input)
    ensures var late := Late(s.collecting, cfg, now);
            && |late| <= |s.collecting|
            && var (told, t) := (s.notices + Tellings(late, |s.collecting|), Process(s, cfg, now, input).0);
               t.notices == told || exists n: Notice :: !n.TimedOut? && t.notices == told + [n]
  {
    LetGoBounded(s, cfg, now);
    NoticesAreTellings(s.collecting, cfg, now, |s.collecting|);
    TakeTells(LetGo(s, cfg, now), cfg, now, PartOf(input).value);
  }

  /** How often the notices tell that a group timed out. */
  function Told(ns: seq<Notice>, group: string): nat {
    if ns == [] then 0 else Told(ns[..|ns| - 1], group) + (if ns[|ns| - 1].TimedOut? && ns[|ns| - 1].group == group then 1 else 0)
  }

  lemma {:induction false} ToldAppend(ns: seq<Notice>, ms: seq<Notice>, group: string)
    ensures Told(ns + ms, group) == Told(ns, group) + Told(ms, group)
  {
    if ms == [] {
      assert ns + ms == ns;
    } else {
      assert (ns + ms)[..|ns + ms| - 1] == ns + ms[..|ms| - 1];
      ToldAppend(ns, ms[..|ms| - 1], group);
    }
  }

  lemma {:induction false} LateTold(d: Dict<string, Collecting>, cfg: Settings, now: real, pending: nat, group: string)
    requires Unique(d) && |d| <= pending
    ensures Told(TimeoutNotices(d, cfg, now, pending), group) ==
            if Has(d, group) && !Lasts(cfg, now, Get(d, group).value.startedAt) then 1 else 0
  {
    if d != [] {
      assert d == [d[0]] + d[1..];
      GetCons(d[0], d[1..], group);
      assert d[0].key == group ==> !Has(d[1..], group);
      if Lasts(cfg, now, d[0].value.startedAt) {
        LateTold(d[1..], cfg, now, pending, group);
      } else {
        LateTold(d[1..], cfg, now, pending - 1, group);
        var first, rest := [TimeoutNotices(d, cfg, now, pending)[0]], TimeoutNotices(d[1..], cfg, now, pending - 1);
        assert first[..0] == [];
        ToldAppend(first, rest, group);
      }
    }
  }

  lemma TakeTold(s: State, cfg: Settings, now: real, p: Part, group: string)
    requires Bounded(s, cfg) && p.index < p.total
    ensures Told(Take(s, cfg, now, p).0.notices, group) == Told(s.notices, group)
  {
    TakeTells(s, cfg, now, p);
    var ns := Take(s, cfg, now, p).0.notices;
    if ns != s.notices {
      assert ns[..|ns| - 1] == s.notices;
    }
  }

  /** Of any group, the part's own among them, one timeout is told exactly if it
      was held and began more than `timeoutMs` milliseconds ago, none otherwise. */
  lemma ToldOnce(s: State, cfg: Settings, now: real, input: Value, group: string)
    requires Bounded(s, cfg) && Arrives(cfg, input)
    ensures Told(Process(s, cfg, now, input).0.notices, group) - Told(s.notices, group) ==
            if && Has(s.collecting, group)
               && (now - Get(s.collecting, group).value.startedAt) * 1000.0 > cfg.timeoutMs as real
            then 1 else 0
  {
    LetGoBounded(s, cfg, now);
    LateTold(s.collecting, cfg, now, |s.collecting|, group);
    ToldAppend(s.notices, TimeoutNotices(s.collecting, cfg, now, |s.collecting|), group);
    TakeTold(LetGo(s, cfg, now), cfg, now, PartOf(input).value, group);
  }
}
