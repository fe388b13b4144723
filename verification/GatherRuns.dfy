/** Whole runs of Gather: any interleaving of groups, any order of arrival. */
module GatherRuns {
  import opened Strings
  import opened OrderedDict
  import opened Values
  import opened Gather

  datatype Arrival = Arrival(now: real, input: Value)

  /** The state after a run. */
  function After(s: State, cfg: Settings, run: seq<Arrival>): (t: State)
    requires Bounded(s, cfg)
    ensures Bounded(t, cfg)
  {
    if run == [] then s
    else
      var last := run[|run| - 1];
      var t := After(s, cfg, run[..|run| - 1]);
      ProcessBounded(t, cfg, last.now, last.input);
      Process(t, cfg, last.now, last.input).0
  }

  /** What the `k`th call of a run returns. */
  function Answer(s: State, cfg: Settings, run: seq<Arrival>, k: nat): Value
    requires Bounded(s, cfg) && k < |run|
  {
    Process(After(s, cfg, run[..k]), cfg, run[k].now, run[k].input).1
  }

  /** The clock never goes back, from `start` on. */
  predicate InTime(start: real, run: seq<Arrival>) {
    && (forall i | 0 <= i < |run| :: start <= run[i].now)
    && (forall i, j | 0 <= i < j < |run| :: run[i].now <= run[j].now)
  }

  function Clock(start: real, run: seq<Arrival>): real { if run == [] then start else run[|run| - 1].now }

  /** Over any run, whatever arrives: what `ProcessKeepsBounds` says of one call
      holds after every one. */
  lemma {:induction false} RunKeepsBounds(s: State, cfg: Settings, start: real, run: seq<Arrival>)
    requires Bounded(s, cfg) && Timed(s, start) && InTime(start, run)
    ensures var t, now := After(s, cfg, run), Clock(start, run);
            && Bounded(t, cfg) && Timed(t, now)
            && (run != [] && !cfg.bypass && PartOf(run[|run| - 1].input).Some? ==> NothingStale(t, cfg, now))
  {
    if run != [] {
      var n := |run| - 1;
      RunKeepsBounds(s, cfg, start, run[..n]);
      ProcessKeepsBounds(After(s, cfg, run[..n]), cfg, Clock(start, run[..n]), run[n].now, run[n].input);
    }
  }

  predicate IsOf(group: string, input: Value) { PartOf(input).Some? && PartOf(input).value.group == group }

  /** The places of a group a run has brought parts for. */
  function Seen(group: string, run: seq<Arrival>): set<nat> {
    if run == [] then {}
    else
      var input := run[|run| - 1].input;
      Seen(group, run[..|run| - 1]) + (if IsOf(group, input) then {PartOf(input).value.index} else {})
  }

  // ── One group among others ────────────────────────────────────────────────

  /** The call neither times the group out nor refuses it, and a part of the
      group is one Spread made of `list`: the guards of `Process`, read for one
      group. What happens to other groups is not restricted. */
  ghost predicate Undisturbed(s: State, cfg: Settings, now: real, input: Value, group: string, list: seq<Value>) {
    && !cfg.bypass
    && (PartOf(input).Some? ==>
          && (Has(s.collecting, group) ==> Lasts(cfg, now, Get(s.collecting, group).value.startedAt))
          && (IsOf(group, input) ==>
                var p, t := PartOf(input).value, LetGo(s, cfg, now);
                && p.total == |list| && p.item == list[p.index]
                && !Has(t.refused, group)
                && (Has(t.collecting, group) || |t.collecting| < cfg.maxGroups)
                && (p.index !in Held(t, p, now).items ==> Held(t, p, now).bytes + SizeOf(cfg, p.item) <= cfg.maxBytes)))
  }

  /** What is held of the group is the list at the places seen. */
  ghost predicate Holds(s: State, group: string, list: seq<Value>, seen: set<nat>) {
    && (forall i | i in seen :: i < |list|)
    && if seen == {} then !Has(s.collecting, group)
       else && Has(s.collecting, group)
            && Get(s.collecting, group).value.total == |list|
            && Get(s.collecting, group).value.items == map i | i in seen :: list[i]
  }

  lemma LetGoHolds(s: State, cfg: Settings, now: real, group: string, list: seq<Value>, seen: set<nat>)
    requires Bounded(s, cfg) && Holds(s, group, list, seen)
    requires Has(s.collecting, group) ==> Lasts(cfg, now, Get(s.collecting, group).value.startedAt)
    ensures Holds(LetGo(s, cfg, now), group, list, seen)
  {
    GetKeep(s.collecting, Arriving(cfg, now), group);
  }

  /** A part of another group leaves this one as it was. */
  lemma OthersApart(s: State, cfg: Settings, now: real, p: Part, group: string)
    requires Bounded(s, cfg) && p.index < p.total && p.group != group
    ensures Get(Take(s, cfg, now, p).0.collecting, group) == Get(s.collecting, group)
  {
    GetRemove(s.collecting, p.group, group);
    var c' := Added(cfg, Held(s, p, now), p);
    GetPut(s.collecting, p.group, c', group);
    RemovePut(s.collecting, p.group, c');
  }

  lemma PlacesOf(list: seq<Value>, places: set<nat>)
    requires forall i | i in places :: i < |list|
    ensures var m := map i | i in places :: list[i];
            && |m| == |places| <= |list|
            && (|places| == |list| ==> (forall i | 0 <= i < |list| :: i in m) && Ordered(m, |list|) == list)
  {
    var m := map i | i in places :: list[i];
    assert m.Keys == places && |m.Keys| == |m|;
    FullRange(places, |list|);
    if |places| == |list| {
      assert Ordered(m, |list|) == list;
    }
  }

  /** The item is in place; the group may be complete with it. */
  lemma NewPlace(s: State, cfg: Settings, now: real, p: Part, list: seq<Value>, seen: set<nat>)
    requires Bounded(s, cfg) && p.index < p.total == |list| && p.item == list[p.index]
    requires Holds(s, p.group, list, seen) && p.index !in seen
    requires Held(s, p, now).bytes + SizeOf(cfg, p.item) <= cfg.maxBytes
    ensures var c := Added(cfg, Held(s, p, now), p);
            && c.items == (map i | i in seen + {p.index} :: list[i]) && c.total == |list|
            && |c.items| == |seen + {p.index}| <= |list|
            && (|c.items| == |list| ==> (forall i | 0 <= i < |list| :: i in c.items) && Ordered(c.items, p.total) == list)
  {
    var c := Added(cfg, Held(s, p, now), p);
    assert c.items == map i | i in seen + {p.index} :: list[i];
    PlacesOf(list, seen + {p.index});
  }

  lemma TakeHolds(s: State, cfg: Settings, now: real, p: Part, list: seq<Value>, seen: set<nat>)
    requires Bounded(s, cfg) && p.index < p.total == |list| && p.item == list[p.index]
    requires Holds(s, p.group, list, seen) && |seen| < |list|
    requires !Has(s.refused, p.group) && (Has(s.collecting, p.group) || |s.collecting| < cfg.maxGroups)
    requires p.index !in Held(s, p, now).items ==> Held(s, p, now).bytes + SizeOf(cfg, p.item) <= cfg.maxBytes
    ensures var (t, answer) := Take(s, cfg, now, p);
            if |seen + {p.index}| < |list| then answer == Null && Holds(t, p.group, list, seen + {p.index})
            else answer == Made(cfg, p.group, list) && !Has(t.collecting, p.group)
  {
    assert Held(s, p, now).items.Keys == seen;
    if p.index in seen {
      assert seen + {p.index} == seen;
    } else {
      NewPlace(s, cfg, now, p, list, seen);
      var c' := Added(cfg, Held(s, p, now), p);
      GetPut(s.collecting, p.group, c', p.group);
      RemovePut(s.collecting, p.group, c');
      GetRemove(s.collecting, p.group, p.group);
    }
  }

  /** One call: a part of the group puts its item at its place, and the one that
      fills the last place returns the list; any other call leaves it alone. */
  lemma StepHolds(s: State, cfg: Settings, now: real, input: Value, group: string, list: seq<Value>, seen: set<nat>)
    requires Bounded(s, cfg) && Holds(s, group, list, seen) && |seen| < |list|
    requires Undisturbed(s, cfg, now, input, group, list)
    ensures var (t, answer) := Process(s, cfg, now, input);
            if !IsOf(group, input) then Holds(t, group, list, seen)
            else
              var seen' := seen + {PartOf(input).value.index};
              if |seen'| < |list| then answer == Null && Holds(t, group, list, seen')
              else answer == Made(cfg, group, list) && !Has(t.collecting, group)
  {
    if PartOf(input).Some? {
      var p, t := PartOf(input).value, LetGo(s, cfg, now);
      LetGoBounded(s, cfg, now);
      LetGoHolds(s, cfg, now, group, list, seen);
      if p.group == group {
        TakeHolds(t, cfg, now, p, list, seen);
      } else {
        OthersApart(t, cfg, now, p, group);
      }
    }
  }

  /** No call of the run disturbs the group. */
  ghost predicate UndisturbedRun(s: State, cfg: Settings, run: seq<Arrival>, group: string, list: seq<Value>)
    requires Bounded(s, cfg)
  {
    run == [] ||
    (UndisturbedRun(s, cfg, run[..|run| - 1], group, list) && UndisturbedLast(s, cfg, run, group, list))
  }

  ghost predicate UndisturbedLast(s: State, cfg: Settings, run: seq<Arrival>, group: string, list: seq<Value>)
    requires Bounded(s, cfg) && run != []
  {
    var last := run[|run| - 1];
    Undisturbed(After(s, cfg, run[..|run| - 1]), cfg, last.now, last.input, group, list)
  }

  lemma AnswerEarlier(s: State, cfg: Settings, run: seq<Arrival>, n: nat, k: nat)
    requires Bounded(s, cfg) && k < n <= |run|
    ensures Answer(s, cfg, run[..n], k) == Answer(s, cfg, run, k)
  {
    assert run[..n][..k] == run[..k];
  }

  lemma {:induction false} UndisturbedEarlier(s: State, cfg: Settings, run: seq<Arrival>, n: nat, group: string, list: seq<Value>)
    requires Bounded(s, cfg) && n <= |run| && UndisturbedRun(s, cfg, run, group, list)
    ensures UndisturbedRun(s, cfg, run[..n], group, list)
    decreases |run|
  {
    if n == |run| {
      assert run[..n] == run;
    } else {
      UndisturbedEarlier(s, cfg, run[..|run| - 1], n, group, list);
      assert run[..|run| - 1][..n] == run[..n];
    }
  }

  /** The first `n` calls say nothing of the group. */
  ghost predicate Quiet(s: State, cfg: Settings, run: seq<Arrival>, n: nat, group: string)
    requires Bounded(s, cfg) && n <= |run|
  {
    forall k | 0 <= k < n && IsOf(group, run[k].input) :: Answer(s, cfg, run, k) == Null
  }

  lemma SeenGrows(group: string, run: seq<Arrival>)
    requires run != []
    ensures |Seen(group, run[..|run| - 1])| <= |Seen(group, run)|
    ensures !IsOf(group, run[|run| - 1].input) ==> Seen(group, run) == Seen(group, run[..|run| - 1])
  {
    SubsetSize(Seen(group, run[..|run| - 1]), Seen(group, run));
  }

  /** Before the last missing part, the group holds what was seen. */
  lemma {:induction false} RunHolds(s: State, cfg: Settings, run: seq<Arrival>, group: string, list: seq<Value>)
    requires Bounded(s, cfg) && !Has(s.collecting, group)
    requires UndisturbedRun(s, cfg, run, group, list) && |Seen(group, run)| < |list|
    ensures Holds(After(s, cfg, run), group, list, Seen(group, run))
  {
    if run != [] {
      SeenGrows(group, run);
      RunHolds(s, cfg, run[..|run| - 1], group, list);
      LastCall(s, cfg, run, group, list);
    }
  }

  lemma {:induction false} SeenEarlier(group: string, run: seq<Arrival>, n: nat)
    requires n <= |run|
    ensures |Seen(group, run[..n])| <= |Seen(group, run)|
    decreases |run|
  {
    if n == |run| {
      assert run[..n] == run;
    } else {
      SeenGrows(group, run);
      SeenEarlier(group, run[..|run| - 1], n);
      assert run[..|run| - 1][..n] == run[..n];
    }
  }

  lemma FewSeen(group: string, run: seq<Arrival>, n: nat, k: nat)
    requires k < n <= |run|
    ensures |Seen(group, run[..k + 1])| <= |Seen(group, run[..n])|
  {
    assert run[..n][..k + 1] == run[..k + 1];
    SeenEarlier(group, run[..n], k + 1);
  }

  lemma CallIsQuiet(s: State, cfg: Settings, run: seq<Arrival>, group: string, list: seq<Value>, n: nat, k: nat)
    requires Bounded(s, cfg) && !Has(s.collecting, group) && k < n <= |run| && IsOf(group, run[k].input)
    requires UndisturbedRun(s, cfg, run, group, list) && |Seen(group, run[..n])| < |list|
    ensures Answer(s, cfg, run, k) == Null
  {
    FewSeen(group, run, n, k);
    EarlierIsQuiet(s, cfg, run, group, list, k);
    AnswerEarlier(s, cfg, run, k + 1, k);
  }

  lemma EarlierIsQuiet(s: State, cfg: Settings, run: seq<Arrival>, group: string, list: seq<Value>, k: nat)
    requires Bounded(s, cfg) && !Has(s.collecting, group) && k < |run| && IsOf(group, run[k].input)
    requires UndisturbedRun(s, cfg, run, group, list) && |Seen(group, run[..k + 1])| < |list|
    ensures Answer(s, cfg, run[..k + 1], k) == Null
  {
    UndisturbedEarlier(s, cfg, run, k + 1, group, list);
    ThatIsQuiet(s, cfg, run[..k + 1], group, list, k, run[k].input);
  }

  lemma ThatIsQuiet(s: State, cfg: Settings, run: seq<Arrival>, group: string, list: seq<Value>, k: nat, input: Value)
    requires Bounded(s, cfg) && !Has(s.collecting, group) && |run| == k + 1 && run[k].input == input && IsOf(group, input)
    requires UndisturbedRun(s, cfg, run, group, list) && |Seen(group, run)| < |list|
    ensures Answer(s, cfg, run, k) == Null
  {
    LastIsQuiet(s, cfg, run, group, list);
  }

  /** And it says nothing. */
  lemma RunIsQuiet(s: State, cfg: Settings, run: seq<Arrival>, group: string, list: seq<Value>, n: nat)
    requires Bounded(s, cfg) && !Has(s.collecting, group) && n <= |run|
    requires UndisturbedRun(s, cfg, run, group, list) && |Seen(group, run[..n])| < |list|
    ensures Quiet(s, cfg, run, n, group)
  {
    forall k | 0 <= k < n && IsOf(group, run[k].input)
      ensures Answer(s, cfg, run, k) == Null
    {
      CallIsQuiet(s, cfg, run, group, list, n, k);
    }
  }

  lemma LastIsQuiet(s: State, cfg: Settings, run: seq<Arrival>, group: string, list: seq<Value>)
    requires Bounded(s, cfg) && !Has(s.collecting, group) && run != [] && IsOf(group, run[|run| - 1].input)
    requires UndisturbedRun(s, cfg, run, group, list) && |Seen(group, run)| < |list|
    ensures Answer(s, cfg, run, |run| - 1) == Null
  {
    SeenGrows(group, run);
    UndisturbedEarlier(s, cfg, run, |run| - 1, group, list);
    RunHolds(s, cfg, run[..|run| - 1], group, list);
    LastCall(s, cfg, run, group, list);
  }

  lemma LastCall(s: State, cfg: Settings, run: seq<Arrival>, group: string, list: seq<Value>)
    requires Bounded(s, cfg) && run != [] && UndisturbedLast(s, cfg, run, group, list)
    requires var earlier := run[..|run| - 1];
             Holds(After(s, cfg, earlier), group, list, Seen(group, earlier)) && |Seen(group, earlier)| < |list|
    ensures |Seen(group, run)| < |list| ==> Holds(After(s, cfg, run), group, list, Seen(group, run))
    ensures IsOf(group, run[|run| - 1].input) ==>
              if |Seen(group, run)| < |list| then Answer(s, cfg, run, |run| - 1) == Null
              else Answer(s, cfg, run, |run| - 1) == Made(cfg, group, list) && !Has(After(s, cfg, run).collecting, group)
  {
    var n := |run| - 1;
    var earlier := run[..n];
    StepHolds(After(s, cfg, earlier), cfg, run[n].now, run[n].input, group, list, Seen(group, earlier));
    SeenGrows(group, run);
  }

  /** Gather rebuilds what Spread split. Among any other traffic, in any order
      and with any repeats, as long as the group is neither refused nor timed
      out: the call that brings the last missing part returns the original list
      (or what the pipeline makes of it), and every earlier call for the group
      returns nothing. */
  lemma GatherRebuilds(s: State, cfg: Settings, run: seq<Arrival>, group: string, list: seq<Value>)
    requires Bounded(s, cfg) && !Has(s.collecting, group) && run != []
    requires UndisturbedRun(s, cfg, run, group, list)
    requires |Seen(group, run[..|run| - 1])| < |list| <= |Seen(group, run)|
    ensures Answer(s, cfg, run, |run| - 1) == Made(cfg, group, list)
    ensures cfg.pipeline.None? && !cfg.stopPropagation ==> Answer(s, cfg, run, |run| - 1) == List(list)
    ensures Quiet(s, cfg, run, |run| - 1, group)
    ensures !Has(After(s, cfg, run).collecting, group)
  {
    var n := |run| - 1;
    UndisturbedEarlier(s, cfg, run, n, group, list);
    RunHolds(s, cfg, run[..n], group, list);
    SeenGrows(group, run);
    LastCall(s, cfg, run, group, list);
    RunIsQuiet(s, cfg, run, group, list, n);
  }

  // ── A part sent twice ─────────────────────────────────────────────────────

  /** The part is taken and is the last its group lacked. */
  ghost predicate Completes(s: State, cfg: Settings, now: real, p: Part) {
    var c := Held(s, p, now);
    && !Has(s.refused, p.group) && (Has(s.collecting, p.group) || |s.collecting| < cfg.maxGroups)
    && c.total == p.total && p.index !in c.items && c.bytes + SizeOf(cfg, p.item) <= cfg.maxBytes
    && |c.items| + 1 == p.total
  }

  lemma LetGoIdle(s: State, cfg: Settings, now: real)
    requires NothingStale(s, cfg, now)
    ensures LetGo(s, cfg, now) == s
  {
    KeepAll(s.collecting, Arriving(cfg, now));
    KeepAll(s.refused, Recent(cfg, now));
    NoTimeouts(s.collecting, cfg, now, |s.collecting|);
  }

  lemma {:induction false} NoTimeouts(d: Dict<string, Collecting>, cfg: Settings, now: real, pending: nat)
    requires |d| <= pending && forall i | 0 <= i < |d| :: Lasts(cfg, now, d[i].value.startedAt)
    ensures TimeoutNotices(d, cfg, now, pending) == []
  {
    if d != [] {
      NoTimeouts(d[1..], cfg, now, pending);
    }
  }

  lemma RefusedIsRemembered(s: State, group: string, now: real, reason: Reason)
    requires !Has(s.refused, group)
    ensures Has(Refuse(s, group, now, reason).refused, group)
  {
    var r := Shorten(s.refused + [Entry(group, now)]);
    assert r[|r| - 1] == Entry(group, now);
  }

  lemma TakenAgain(s: State, cfg: Settings, now: real, p: Part)
    requires Bounded(s, cfg) && p.index < p.total && Bounded(Take(s, cfg, now, p).0, cfg)
    requires !Completes(s, cfg, now, p)
    ensures var t := Take(s, cfg, now, p).0; Take(t, cfg, now, p) == (t, Null)
  {
    var c := Held(s, p, now);
    if Has(s.refused, p.group) {
    } else if !Has(s.collecting, p.group) && |s.collecting| >= cfg.maxGroups {
      RefusedIsRemembered(s, p.group, now, TooManyGroups);
    } else if c.total != p.total {
      RefusedIsRemembered(s, p.group, now, TotalsDiffer(c.total, p.total));
    } else if p.index in c.items {
    } else if c.bytes + SizeOf(cfg, p.item) > cfg.maxBytes {
      RefusedIsRemembered(s, p.group, now, TooLarge);
    } else {
      AddedIsBounded(s, cfg, p, now);
      GetPut(s.collecting, p.group, Added(cfg, c, p), p.group);
    }
  }

  lemma CompletedAgain(s: State, cfg: Settings, now: real, p: Part)
    requires Bounded(s, cfg) && p.index < p.total && Bounded(Take(s, cfg, now, p).0, cfg)
    requires Completes(s, cfg, now, p)
    ensures var t := Take(s, cfg, now, p).0; Take(t, cfg, now, p).0 != t
  {
    var c' := Added(cfg, Held(s, p, now), p);
    AddedIsBounded(s, cfg, p, now);
    RemovePut(s.collecting, p.group, c');
    GetRemove(s.collecting, p.group, p.group);
    var t := Take(s, cfg, now, p).0;
    assert !Has(t.collecting, p.group) && |t.collecting| < cfg.maxGroups;
    assert |Take(t, cfg, now, p).0.notices| > |t.notices|;
  }

  /** "A part sent twice counts once" holds exactly of a part that does not
      complete its group: sent again at once it changes nothing and returns
      nothing. The part that completes a group, sent again, begins the group
      anew. */
  lemma SentTwiceCountsOnce(s: State, cfg: Settings, before: real, now: real, input: Value)
    requires Bounded(s, cfg) && Timed(s, before) && before <= now
    requires !cfg.bypass && PartOf(input).Some?
    ensures var t := Process(s, cfg, now, input).0;
            && Bounded(t, cfg)
            && (Process(t, cfg, now, input) == (t, Null) <==> !Completes(LetGo(s, cfg, now), cfg, now, PartOf(input).value))
  {
    var p, u := PartOf(input).value, LetGo(s, cfg, now);
    ProcessKeepsBounds(s, cfg, before, now, input);
    LetGoBounded(s, cfg, now);
    LetGoIdle(Process(s, cfg, now, input).0, cfg, now);
    if Completes(u, cfg, now, p) {
      CompletedAgain(u, cfg, now, p);
    } else {
      TakenAgain(u, cfg, now, p);
    }
  }

  /** The shortest case: the one part of a group of one, sent twice, is passed
      on twice. */
  lemma SentTwicePassedOnTwice(item: Value, now: real)
    requires item.Str? && item.s == ""
    ensures var cfg := Settings(false, false, 10, 1, 1000, None, _ => 0);
            var part := Value.Dict(map["item" := item, "group" := Str("g"), "index" := Int(0), "total" := Int(1)]);
            var (t, first) := Process(EMPTY, cfg, now, part);
            Bounded(t, cfg) && first == List([item]) && Process(t, cfg, now, part).1 == List([item])
  {
    var cfg := Settings(false, false, 10, 1, 1000, None, _ => 0);
    var part := Value.Dict(map["item" := item, "group" := Str("g"), "index" := Int(0), "total" := Int(1)]);
    assert PartOf(part) == Some(Part("g", 0, 1, item));
    ProcessBounded(EMPTY, cfg, now, part);
    var t := Process(EMPTY, cfg, now, part).0;
    OnePart(EMPTY, cfg, now, Part("g", 0, 1, item));
    LetGoBounded(t, cfg, now);
    OnePart(LetGo(t, cfg, now), cfg, now, Part("g", 0, 1, item));
  }

  lemma OnePart(s: State, cfg: Settings, now: real, p: Part)
    requires Bounded(s, cfg) && s.collecting == [] && s.refused == [] && cfg.maxGroups > 0
    requires p.index == 0 && p.total == 1 && SizeOf(cfg, p.item) <= cfg.maxBytes
    requires cfg.pipeline.None? && !cfg.stopPropagation
    ensures Take(s, cfg, now, p).1 == List([p.item])
    ensures Take(s, cfg, now, p).0.collecting == [] && Take(s, cfg, now, p).0.refused == []
  {
    var c := Added(cfg, Held(s, p, now), p);
    assert c.items == map[0 := p.item];
    HeldIsBounded(s, cfg, p, now);
    FullRange(c.items.Keys, p.total);
    assert Ordered(c.items, 1) == [p.item];
  }
}
