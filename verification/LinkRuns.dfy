/** What holds over every run of the links to coordinators, from what was saved
    before the process started and through any interleaving of its operations. */
module LinkRuns {
  import opened Strings
  import opened OrderedDict
  import opened Links

  // ── Starting again from what was saved ────────────────────────────────────

  lemma {:induction false} RestoreKeeps(s: State, records: seq<Record>)
    requires Registered(s.links, s.all)
    ensures var t := Restore(s, records);
            Registered(t.links, t.all) && t.saved == s.saved && t.tasks == s.tasks && t.tornDown == s.tornDown
    decreases |records|
  {
    if records != [] {
      var r := records[0];
      if !Has(s.links, r.key) {
        var t := Begin(s, r);
        ExtendedKeeps(s.links, [], s.all, t.all);
        PutKeeps(s.links, r.key, |s.all|, t.all);
        RestoreKeeps(t, records[1..]);
      } else {
        RestoreKeeps(s, records[1..]);
      }
    }
  }

  lemma BeginRecords(s: State, r: Record)
    requires Registered(s.links, s.all) && !Has(s.links, r.key)
    ensures RecordsOf(Begin(s, r).links, Begin(s, r).all) == RecordsOf(s.links, s.all) + [r]
    ensures Registered(Begin(s, r).links, Begin(s, r).all)
  {
    var t := Begin(s, r);
    ExtendedKeeps(s.links, [], s.all, t.all);
    PutKeeps(s.links, r.key, |s.all|, t.all);
    assert forall i | 0 <= i < |s.links| :: t.links[i] == s.links[i];
    assert forall i | 0 <= i < |s.links| :: RecordsOf(t.links, t.all)[i] == RecordsOf(s.links, s.all)[i];
  }

  lemma HasPut(d: Dict<Key, nat>, k: Key, l: nat, k': Key)
    requires Unique(d)
    ensures Has(Put(d, k, l), k') <==> k' == k || Has(d, k')
  {
    GetPut(d, k, l, k');
    assert Has(d, k') <==> Get(d, k').Some?;
    assert Has(Put(d, k, l), k') <==> Get(Put(d, k, l), k').Some?;
  }

  lemma FirstMoved<T>(a: seq<T>, b: seq<T>)
    requires b != []
    ensures a + [b[0]] + b[1..] == a + b
  {
  }

  lemma {:induction false} RestoreRegistersAll(s: State, records: seq<Record>)
    requires Registered(s.links, s.all) && UniqueKeys(records)
    requires forall i | 0 <= i < |records| :: !Has(s.links, records[i].key)
    ensures var t := Restore(s, records); RecordsOf(t.links, t.all) == RecordsOf(s.links, s.all) + records
    decreases |records|
  {
    if records == [] {
      assert RecordsOf(s.links, s.all) + records == RecordsOf(s.links, s.all);
    } else {
      var r, rest := records[0], records[1..];
      var t := Begin(s, r);
      BeginRecords(s, r);
      forall i | 0 <= i < |rest|
        ensures !Has(t.links, rest[i].key)
      {
        HasPut(s.links, r.key, |s.all|, rest[i].key);
        assert rest[i] == records[i + 1];
      }
      RestoreRegistersAll(t, rest);
      FirstMoved(RecordsOf(s.links, s.all), records);
    }
  }

  /** A start registers exactly the saved records, in their order, whenever no
      two of them are for one runtime, and only then. */
  lemma StartAgrees(saved: seq<Record>)
    ensures var t := Start(saved);
            Registered(t.links, t.all) && t.saved == saved && t.tasks == [] && t.tornDown == []
    ensures RecordsOf(Start(saved).links, Start(saved).all) == saved <==> UniqueKeys(saved)
  {
    var s := State([], [], saved, [], []);
    RestoreKeeps(s, saved);
    RecordsAreUnique(Start(saved).links, Start(saved).all);
    if UniqueKeys(saved) {
      RestoreRegistersAll(s, saved);
      assert RecordsOf(s.links, s.all) + saved == saved;
    }
  }

  // ── Over every run ────────────────────────────────────────────────────────

  lemma {:induction false} RunInv(saved: seq<Record>, steps: seq<Step>, cfg: Settings)
    requires UniqueKeys(saved)
    ensures Inv(Run(saved, steps, cfg))
  {
    if steps == [] {
      StartAgrees(saved);
    } else {
      var before, step := steps[..|steps| - 1], steps[|steps| - 1];
      RunInv(saved, before, cfg);
      if Enabled(Run(saved, before, cfg), step) {
        StepInv(Run(saved, before, cfg), step, cfg);
      }
    }
  }

  lemma {:induction false} RunWired(saved: seq<Record>, steps: seq<Step>, cfg: Settings)
    ensures Wired(Run(saved, steps, cfg))
  {
    if steps == [] {
      StartAgrees(saved);
    } else {
      var before, step := steps[..|steps| - 1], steps[|steps| - 1];
      RunWired(saved, before, cfg);
      if Enabled(Run(saved, before, cfg), step) {
        StepWired(Run(saved, before, cfg), step, cfg);
      }
    }
  }

  /** Whenever nothing is in flight the saved records are those of the registered
      links, one a key, and a restart registers those same records again. */
  lemma SavedLinksAgreeAtRest(saved: seq<Record>, steps: seq<Step>, cfg: Settings)
    requires UniqueKeys(saved)
    ensures var t := Run(saved, steps, cfg);
            && Unique(t.links) && UniqueKeys(t.saved)
            && (t.tasks == [] ==> t.saved == RecordsOf(t.links, t.all))
            && (t.tasks == [] ==> RecordsOf(Start(t.saved).links, Start(t.saved).all) == RecordsOf(t.links, t.all))
  {
    RunInv(saved, steps, cfg);
    StartAgrees(Run(saved, steps, cfg).saved);
  }

  // ── A link that was replaced ──────────────────────────────────────────────

  ghost predicate IsRegistered(s: State, l: nat) {
    exists i :: 0 <= i < |s.links| && s.links[i].value == l
  }

  /** The link a step acts for, if it is one of a link. */
  function LinkOf(s: State, step: Step): Option<nat>
    requires Enabled(s, step)
  {
    match step
    case Settled(i, _) => Some(s.tasks[i].link)
    case Failed(i) => Some(s.tasks[i].link)
    case Welcome(l) => Some(l)
    case ConnectionEnds(l, _) => Some(l)
    case Wake(l) => Some(l)
    case _ => None
  }

  lemma RegisteredBefore(links: Dict<Key, nat>, k: Key, l: nat, m: nat)
    ensures forall i | 0 <= i < |Put(links, k, m)| && Put(links, k, m)[i].value == l ::
              l == m || exists j :: 0 <= j < |links| && links[j].value == l
    ensures forall i | 0 <= i < |OrderedDict.Remove(links, k)| && OrderedDict.Remove(links, k)[i].value == l ::
              exists j :: 0 <= j < |links| && links[j].value == l
  {
    var i, r := Find(links, k), OrderedDict.Remove(links, k);
    assert i < |links| ==> forall j | 0 <= j < |r| :: r[j] == links[if j < i then j else j + 1];
  }

  /** Of the registrations after a step, the only new one is of a new link. */
  lemma RegisteredThen(s: State, step: Step, cfg: Settings, l: nat)
    requires Wired(s) && Enabled(s, step) && l < |s.all| && IsRegistered(Take(s, step, cfg), l)
    ensures IsRegistered(s, l)
  {
    match step
    case Introduce(record) => RegisteredBefore(s.links, record.key, l, |s.all|);
    case Replaced(i) => RegisteredBefore(s.links, s.tasks[i].record.key, l, |s.all|);
    case Failed(i) => RegisteredBefore(s.links, s.tasks[i].record.key, l, |s.all|);
    case Remove(key) => RegisteredBefore(s.links, key, l, |s.all|);
    case ConnectionEnds(m, _) => RegisteredBefore(s.links, s.all[m].record.key, l, |s.all|);
    case _ =>
  }

  lemma AllGrow(s: State, step: Step, cfg: Settings)
    requires Enabled(s, step)
    ensures |s.all| <= |Take(s, step, cfg).all|
  {
  }

  /** What the link's own connection, its introduction's outcome or the
      disposal after it do leaves the registered links and the host alone. */
  lemma StrangerIsHarmless(s: State, step: Step, cfg: Settings, l: nat)
    requires Wired(s) && Enabled(s, step) && l < |s.all| && !IsRegistered(s, l) && LinkOf(s, step) == Some(l)
    ensures Take(s, step, cfg).links == s.links && Take(s, step, cfg).tornDown == s.tornDown
  {
    var k := if step.Failed? then s.tasks[step.task].record.key else s.all[l].record.key;
    if Has(s.links, k) {
      assert s.links[Find(s.links, k)].value != l;
    }
  }

  function Next(s: State, step: Step, cfg: Settings): State {
    if Enabled(s, step) then Take(s, step, cfg) else s
  }

  function Later(s: State, steps: seq<Step>, cfg: Settings): State
    decreases |steps|
  {
    if steps == [] then s else Later(Next(s, steps[0], cfg), steps[1..], cfg)
  }

  lemma {:induction false} StaysUnregistered(s: State, steps: seq<Step>, cfg: Settings, l: nat)
    requires Wired(s) && l < |s.all| && !IsRegistered(s, l)
    ensures Wired(Later(s, steps, cfg)) && l < |Later(s, steps, cfg).all| && !IsRegistered(Later(s, steps, cfg), l)
    decreases |steps|
  {
    if steps != [] {
      if Enabled(s, steps[0]) {
        StepWired(s, steps[0], cfg);
        var t := Take(s, steps[0], cfg);
        AllGrow(s, steps[0], cfg);
        if IsRegistered(t, l) {
          RegisteredThen(s, steps[0], cfg, l);
        }
        StaysUnregistered(t, steps[1..], cfg, l);
      } else {
        StaysUnregistered(s, steps[1..], cfg, l);
      }
    }
  }

  /** A link that lost its place never has one again, and whatever happens to it
      after any later run unregisters nobody and removes no runtime. */
  lemma ReplacedLinkIsHarmless(s: State, steps: seq<Step>, cfg: Settings, l: nat, step: Step)
    requires Wired(s) && l < |s.all| && !IsRegistered(s, l)
    requires Enabled(Later(s, steps, cfg), step) && LinkOf(Later(s, steps, cfg), step) == Some(l)
    ensures var t := Later(s, steps, cfg);
            !IsRegistered(t, l) && Take(t, step, cfg).links == t.links && Take(t, step, cfg).tornDown == t.tornDown
  {
    StaysUnregistered(s, steps, cfg, l);
    StrangerIsHarmless(Later(s, steps, cfg), step, cfg, l);
  }

  /** Who may unregister a link: its own rejection or failed introduction, a
      removal, or an introduction for the same runtime. */
  ghost predicate MayUnregister(s: State, step: Step, cfg: Settings, k: Key, l: nat) {
    match step
    case Introduce(record) => record.key == k && !IsConnected(s, k) && cfg.joinUrl(record.coordinatorUrl).Some?
    case Replaced(i) => i < |s.tasks| && s.tasks[i].Replacing? && s.tasks[i].record.key == k
    case Failed(i) => i < |s.tasks| && s.tasks[i].Failing? && s.tasks[i].link == l
    case Remove(key) => key == k
    case ConnectionEnds(m, rejected) => m == l && rejected && l < |s.all| && !s.all[l].disposed
    case _ => false
  }

  lemma UnregisteredOnlySo(s: State, step: Step, cfg: Settings, k: Key, l: nat)
    requires Wired(s) && Enabled(s, step) && Get(s.links, k) == Some(l)
    ensures Get(Take(s, step, cfg).links, k) != Some(l) <==> MayUnregister(s, step, cfg, k, l)
  {
    var t := Take(s, step, cfg);
    assert l == s.links[Find(s.links, k)].value && l < |s.all| && s.all[l].record.key == k;
    match step
    case Introduce(record) =>
      GetRemove(s.links, record.key, k);
      GetPut(s.links, record.key, |s.all|, k);
    case Replaced(i) => GetPut(s.links, s.tasks[i].record.key, |s.all|, k);
    case Failed(i) => assert TaskHolds(s.tasks[i], s.all); GetRemove(s.links, s.tasks[i].record.key, k);
    case Remove(key) => GetRemove(s.links, key, k);
    case ConnectionEnds(m, _) => GetRemove(s.links, s.all[m].record.key, k);
    case _ =>
  }

  // ── What it does not keep ─────────────────────────────────────────────────

  lemma StartOfOne(r: Record)
    ensures Start([r]) == State([Entry(r.key, 0)], [Link(r, false, false, Connecting, 0, false)], [r], [], [])
  {
    var s := State([], [], [r], [], []);
    assert Restore(s, [r]) == Restore(Begin(s, r), []) by { assert [r][1..] == []; }
  }

  lemma OneEntry(k: Key, l: nat, m: nat)
    ensures var links := [Entry(k, l)];
            Get(links, k) == Some(l) && OrderedDict.Remove(links, k) == [] && Put(links, k, m) == [Entry(k, m)]
    ensures Put([], k, l) == [Entry(k, l)] && Get<Key, nat>([], k) == None
  {
  }

  /** A link nobody disposed of, that is not the one registered for its runtime. */
  ghost predicate IsStray(s: State, l: nat) {
    l < |s.all| && !s.all[l].disposed && Get(s.links, s.all[l].record.key) != Some(l)
  }

  /** Every link that is not disposed of is the registered one of its runtime. */
  ghost predicate AllLive(s: State) {
    forall l: nat | l < |s.all| && !s.all[l].disposed :: Get(s.links, s.all[l].record.key) == Some(l)
  }

  /** An introduction that had waited for a disposal puts its link where another
      has been registered meanwhile. */
  predicate Displaces(s: State, step: Step, l: nat) {
    && step.Replaced? && step.task < |s.tasks| && s.tasks[step.task].Replacing?
    && Get(s.links, s.tasks[step.task].record.key) == Some(l)
  }

  /** The same, of whichever link is registered there and not disposed of. */
  predicate DisplacesLive(s: State, step: Step) {
    && step.Replaced? && step.task < |s.tasks| && s.tasks[step.task].Replacing?
    && var held := Get(s.links, s.tasks[step.task].record.key);
       held.Some? && held.value < |s.all| && !s.all[held.value].disposed
  }

  lemma HeldAt(s: State, k: Key)
    requires Wired(s)
    ensures var held := Get(s.links, k); held.Some? ==> held.value < |s.all| && s.all[held.value].record.key == k
  {
  }

  lemma IntroduceStrays(s: State, record: Record, cfg: Settings, l: nat)
    requires Wired(s) && l < |Take(s, Introduce(record), cfg).all|
    ensures var t := Take(s, Introduce(record), cfg); IsStray(t, l) <==> !t.all[l].disposed && IsStray(s, l)
  {
    HeldAt(s, record.key);
    var k := Take(s, Introduce(record), cfg).all[l].record.key;
    GetRemove(s.links, record.key, k);
    GetPut(s.links, record.key, |s.all|, k);
  }

  lemma ReplacedStrays(s: State, i: nat, cfg: Settings, l: nat)
    requires Wired(s) && Enabled(s, Replaced(i)) && l < |Take(s, Replaced(i), cfg).all|
    ensures var t := Take(s, Replaced(i), cfg);
            IsStray(t, l) <==> !t.all[l].disposed && (IsStray(s, l) || Displaces(s, Replaced(i), l))
  {
    var key := s.tasks[i].record.key;
    HeldAt(s, key);
    GetPut(s.links, key, |s.all|, Take(s, Replaced(i), cfg).all[l].record.key);
    HeldAt(s, if l < |s.all| then s.all[l].record.key else key);
  }

  lemma FailedStrays(s: State, i: nat, cfg: Settings, l: nat)
    requires Wired(s) && Enabled(s, Failed(i)) && l < |s.all|
    ensures var t := Take(s, Failed(i), cfg); IsStray(t, l) <==> !t.all[l].disposed && IsStray(s, l)
  {
    assert TaskHolds(s.tasks[i], s.all);
    GetRemove(s.links, s.tasks[i].record.key, s.all[l].record.key);
  }

  lemma RemoveStrays(s: State, key: Key, cfg: Settings, l: nat)
    requires Wired(s) && l < |s.all|
    ensures var t := Take(s, Remove(key), cfg); IsStray(t, l) <==> !t.all[l].disposed && IsStray(s, l)
  {
    HeldAt(s, key);
    GetRemove(s.links, key, s.all[l].record.key);
  }

  lemma EndsStrays(s: State, m: nat, rejected: bool, cfg: Settings, l: nat)
    requires Wired(s) && Enabled(s, ConnectionEnds(m, rejected)) && l < |s.all|
    ensures var t := Take(s, ConnectionEnds(m, rejected), cfg); IsStray(t, l) <==> !t.all[l].disposed && IsStray(s, l)
  {
    GetRemove(s.links, s.all[m].record.key, s.all[l].record.key);
  }

  /** What makes a stray: a link is one after a step exactly if it was not
      disposed of, and was a stray before or was displaced by that step. */
  lemma StraysExactly(s: State, step: Step, cfg: Settings, l: nat)
    requires Wired(s) && Enabled(s, step) && l < |Take(s, step, cfg).all|
    ensures var t := Take(s, step, cfg);
            IsStray(t, l) <==> !t.all[l].disposed && (IsStray(s, l) || Displaces(s, step, l))
  {
    match step
    case Introduce(record) => IntroduceStrays(s, record, cfg, l);
    case Replaced(i) => ReplacedStrays(s, i, cfg, l);
    case Failed(i) => FailedStrays(s, i, cfg, l);
    case Remove(key) => RemoveStrays(s, key, cfg, l);
    case ConnectionEnds(m, rejected) => EndsStrays(s, m, rejected, cfg, l);
    case _ =>
  }

  /** Where every live link is registered, a step leaves it so unless it is an
      introduction that displaces a live link, and only then does it not. */
  lemma LiveUnlessDisplaced(s: State, step: Step, cfg: Settings)
    requires Wired(s) && AllLive(s) && Enabled(s, step)
    ensures AllLive(Take(s, step, cfg)) <==> !DisplacesLive(s, step)
  {
    var t := Take(s, step, cfg);
    forall l: nat | l < |t.all|
      ensures IsStray(t, l) <==> !t.all[l].disposed && Displaces(s, step, l)
    {
      StraysExactly(s, step, cfg, l);
    }
    if DisplacesLive(s, step) {
      var l := Get(s.links, s.tasks[step.task].record.key).value;
      assert !t.all[l].disposed && Displaces(s, step, l);
      assert IsStray(t, l);
    } else {
      forall l: nat | l < |t.all|
        ensures !IsStray(t, l)
      {
        HeldAt(s, if Displaces(s, step, l) then s.tasks[step.task].record.key else t.all[l].record.key);
      }
    }
  }

  lemma {:induction false} RestoredAreLive(s: State, records: seq<Record>)
    requires Registered(s.links, s.all) && AllLive(s)
    ensures AllLive(Restore(s, records))
    decreases |records|
  {
    if records != [] {
      var r := records[0];
      if Has(s.links, r.key) {
        RestoredAreLive(s, records[1..]);
      } else {
        var t := Begin(s, r);
        ExtendedKeeps(s.links, [], s.all, t.all);
        PutKeeps(s.links, r.key, |s.all|, t.all);
        forall l: nat | l < |t.all| && !t.all[l].disposed
          ensures Get(t.links, t.all[l].record.key) == Some(l)
        {
          GetPut(s.links, r.key, |s.all|, t.all[l].record.key);
        }
        RestoredAreLive(t, records[1..]);
      }
    }
  }

  /** At every moment of a run, every live link is the registered one. */
  ghost predicate LiveAllAlong(saved: seq<Record>, steps: seq<Step>, cfg: Settings) {
    && AllLive(Run(saved, steps, cfg))
    && (steps != [] ==> LiveAllAlong(saved, steps[..|steps| - 1], cfg))
  }

  /** No step of a run puts an introduction's link in the place of a live one. */
  ghost predicate NoneDisplaced(saved: seq<Record>, steps: seq<Step>, cfg: Settings) {
    steps != [] ==>
      var before := steps[..|steps| - 1];
      NoneDisplaced(saved, before, cfg) && !DisplacesLive(Run(saved, before, cfg), steps[|steps| - 1])
  }

  /** The one is so exactly if the other is: overlapping introductions are the
      only way to a link that lives unregistered. */
  lemma {:induction false} LiveUnlessOverlapping(saved: seq<Record>, steps: seq<Step>, cfg: Settings)
    ensures LiveAllAlong(saved, steps, cfg) <==> NoneDisplaced(saved, steps, cfg)
  {
    if steps == [] {
      RestoredAreLive(State([], [], saved, [], []), saved);
    } else {
      var before, step := steps[..|steps| - 1], steps[|steps| - 1];
      var s := Run(saved, before, cfg);
      LiveUnlessOverlapping(saved, before, cfg);
      RunWired(saved, before, cfg);
      if AllLive(s) && Enabled(s, step) {
        LiveUnlessDisplaced(s, step, cfg);
      }
    }
  }

  /** Two introductions that overlap leave a link connected that is not
      registered: the second's, put out of its place by the first. */
  lemma OverlappingIntroductionsLeaveOne(r: Record, cfg: Settings)
    requires cfg.joinUrl(r.coordinatorUrl).Some?
    ensures var s := Next(Next(Start([r]), Introduce(r), cfg), Introduce(r), cfg);
            var t := Next(Next(s, Replaced(0), cfg), Welcome(1), cfg);
            && DisplacesLive(s, Replaced(0))
            && |t.all| == 3 && t.all[1].connected && !t.all[1].disposed && !IsRegistered(t, 1)
  {
    StartOfOne(r);
    OneEntry(r.key, 0, 1);
    OneEntry(r.key, 1, 2);
    var s1 := Next(Start([r]), Introduce(r), cfg);
    assert s1.links == [] && s1.tasks == [Replacing(r)] && |s1.all| == 1;
    var s2 := Next(s1, Introduce(r), cfg);
    assert s2.links == [Entry(r.key, 1)] && |s2.all| == 2 && s2.tasks[0] == Replacing(r);
    var s3 := Next(s2, Replaced(0), cfg);
    assert s3.links == [Entry(r.key, 2)] && s3.all[1] == s2.all[1];
  }

  /** A step that removed the runtime of a link that is registered after it. */
  predicate TookRegistered(s: State, t: State) {
    |t.tornDown| > |s.tornDown| && Has(t.links, t.tornDown[|s.tornDown|])
  }

  /** The end of a removal whose runtime has been introduced again meanwhile. */
  predicate IsOvertaken(s: State, step: Step) {
    step.Removed? && step.task < |s.tasks| && s.tasks[step.task].Removing? && Has(s.links, s.tasks[step.task].key)
  }

  /** A step removes one runtime or none; and it is that of a link still
      registered exactly if the step ends a removal that was overtaken. */
  lemma TakesARegisteredRuntimeExactly(s: State, step: Step, cfg: Settings)
    requires Wired(s) && Enabled(s, step)
    ensures var t := Take(s, step, cfg);
            && (t.tornDown == s.tornDown || (|t.tornDown| == |s.tornDown| + 1 && t.tornDown[..|s.tornDown|] == s.tornDown))
            && (TookRegistered(s, t) <==> IsOvertaken(s, step))
  {
    if step.ConnectionEnds? {
      var k := s.all[step.link].record.key;
      GetRemove(s.links, k, k);
      assert Has(OrderedDict.Remove(s.links, k), k) ==> Get(OrderedDict.Remove(s.links, k), k).Some?;
    }
  }

  /** In a run a step takes a registered link's runtime exactly where it ends a
      removal that an introduction overtook. */
  lemma RuntimesTakenInARun(saved: seq<Record>, steps: seq<Step>, cfg: Settings, n: nat)
    requires n < |steps|
    ensures TookRegistered(Run(saved, steps[..n], cfg), Run(saved, steps[..n + 1], cfg))
            <==> IsOvertaken(Run(saved, steps[..n], cfg), steps[n])
  {
    var s := Run(saved, steps[..n], cfg);
    assert steps[..n + 1][..n] == steps[..n] && steps[..n + 1][n] == steps[n];
    RunWired(saved, steps[..n], cfg);
    if Enabled(s, steps[n]) {
      TakesARegisteredRuntimeExactly(s, steps[n], cfg);
    }
  }

  lemma RemovedThenIntroduced(r: Record, cfg: Settings)
    requires cfg.joinUrl(r.coordinatorUrl).Some?
    ensures var s := Next(Next(Start([r]), Remove(r.key), cfg), Introduce(r), cfg);
            && s.links == [Entry(r.key, 1)] && s.tasks == [Removing(r.key), Waiting(r, 1)] && s.tornDown == []
            && |s.all| == 2 && s.all[1] == Link(r, false, false, Connecting, 0, false)
  {
    StartOfOne(r);
    OneEntry(r.key, 0, 1);
    var s1 := Next(Start([r]), Remove(r.key), cfg);
    assert s1.links == [] && s1.tasks == [Removing(r.key)] && |s1.all| == 1;
  }

  lemma WelcomedThenRemoved(s: State, r: Record, cfg: Settings)
    requires s.links == [Entry(r.key, 1)] && s.tasks == [Removing(r.key), Waiting(r, 1)] && s.tornDown == []
    requires |s.all| == 2 && s.all[1] == Link(r, false, false, Connecting, 0, false)
    ensures var t := Next(Next(Next(s, Welcome(1), cfg), Settled(1, true), cfg), Removed(0), cfg);
            t.tornDown == [r.key] && t.links == s.links && |t.all| == 2 && t.all[1].connected
  {
    var s3 := Next(s, Welcome(1), cfg);
    var s4 := Next(s3, Settled(1, true), cfg);
    assert s4.tasks == [Removing(r.key)] && s4.links == s.links && s4.all == s3.all && s4.tornDown == [];
  }

  /** A removal that an introduction overtakes removes the new link's runtime. */
  lemma RemovalTakesTheSuccessorsRuntime(r: Record, cfg: Settings)
    requires cfg.joinUrl(r.coordinatorUrl).Some?
    ensures var s := Next(Next(Start([r]), Remove(r.key), cfg), Introduce(r), cfg);
            var t := Next(Next(Next(s, Welcome(1), cfg), Settled(1, true), cfg), Removed(0), cfg);
            t.tornDown == [r.key] && Get(t.links, r.key) == Some(1) && |t.all| == 2 && t.all[1].connected
  {
    RemovedThenIntroduced(r, cfg);
    OneEntry(r.key, 1, 1);
    WelcomedThenRemoved(Next(Next(Start([r]), Remove(r.key), cfg), Introduce(r), cfg), r, cfg);
  }

  // ── Waiting between connections ───────────────────────────────────────────

  /** The wait after `n` waits before it: the first, then twice the one before,
      but never longer than the longest. */
  function Wait(first: nat, longest: nat, n: nat): (wait: nat)
    ensures wait <= longest
  {
    var wait := if n == 0 then first else 2 * Wait(first, longest, n - 1);
    if wait <= longest then wait else longest
  }

  lemma {:induction false} DelayIsWait(cfg: Settings, n: nat)
    ensures Delay(cfg, n) == Wait(cfg.reconnectDelay, cfg.maxReconnectDelay, n)
  {
    if n == 0 {
      assert cfg.reconnectDelay * Doubled(0) == cfg.reconnectDelay;
    } else {
      DelayIsWait(cfg, n - 1);
      assert cfg.reconnectDelay * Doubled(n) == 2 * (cfg.reconnectDelay * Doubled(n - 1));
    }
  }

  ghost predicate WaitsRight(link: Link, cfg: Settings) {
    link.phase.Sleeping? ==>
      && link.attempts >= 1
      && link.phase.delay == Wait(cfg.reconnectDelay, cfg.maxReconnectDelay, link.attempts - 1)
  }

  ghost predicate AllWaitRight(s: State, cfg: Settings) {
    forall i | 0 <= i < |s.all| :: WaitsRight(s.all[i], cfg)
  }

  lemma StartWaitsRight(s: State, records: seq<Record>, cfg: Settings)
    requires AllWaitRight(s, cfg)
    ensures AllWaitRight(Restore(s, records), cfg)
    decreases |records|
  {
    if records != [] {
      StartWaitsRight(if Has(s.links, records[0].key) then s else Begin(s, records[0]), records[1..], cfg);
    }
  }

  lemma StepWaitsRight(s: State, step: Step, cfg: Settings)
    requires AllWaitRight(s, cfg) && Enabled(s, step)
    ensures AllWaitRight(Take(s, step, cfg), cfg)
  {
    forall n: nat ensures Delay(cfg, n) == Wait(cfg.reconnectDelay, cfg.maxReconnectDelay, n) { DelayIsWait(cfg, n); }
  }

  /** In every run a link that waits to reconnect waits the first delay, doubled
      once for each earlier attempt it counts but never past the longest. */
  lemma {:induction false} LinksWaitRight(saved: seq<Record>, steps: seq<Step>, cfg: Settings)
    ensures AllWaitRight(Run(saved, steps, cfg), cfg)
  {
    if steps == [] {
      StartWaitsRight(State([], [], saved, [], []), saved, cfg);
    } else {
      var before, step := steps[..|steps| - 1], steps[|steps| - 1];
      LinksWaitRight(saved, before, cfg);
      if Enabled(Run(saved, before, cfg), step) {
        StepWaitsRight(Run(saved, before, cfg), step, cfg);
      }
    }
  }

  /** After `n` connections that ended, unwelcomed, and as many waits. */
  function AfterFailures(s: State, l: nat, n: nat, cfg: Settings): State {
    if n == 0 then s
    else Next(Next(AfterFailures(s, l, n - 1, cfg), ConnectionEnds(l, false), cfg), Wake(l), cfg)
  }

  /** A link that was welcomed waits the first delay when its connection ends,
      and doubles it each time it comes back without being welcomed. */
  lemma {:induction false} DelaysDouble(s: State, l: nat, n: nat, cfg: Settings)
    requires l < |s.all| && s.all[l].phase.Connecting? && !s.all[l].disposed && s.all[l].welcomedOnce
    ensures var t := AfterFailures(s, l, n, cfg);
            && l < |t.all| && t.all[l].phase.Connecting? && !t.all[l].disposed
            && (if n == 0 then t.all[l].welcomedOnce else t.all[l].attempts == n && !t.all[l].welcomedOnce)
            && Next(t, ConnectionEnds(l, false), cfg).all[l].phase == Sleeping(Wait(cfg.reconnectDelay, cfg.maxReconnectDelay, n))
  {
    DelayIsWait(cfg, n);
    if n > 0 {
      DelaysDouble(s, l, n - 1, cfg);
    }
  }
}
