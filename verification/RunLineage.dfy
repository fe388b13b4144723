/** Whose runs a tree of calls makes: every run begun inside a run is a child of
    one that made it, keeps its actor and ends with that actor's deadline. */
module RunLineage {
  import opened Strings
  import opened Runs

  /** The run a tree of calls is about, how much had happened when it began, and
      the number the next run was to have then. */
  datatype Root = Root(run: Context, begins: nat, firstRun: nat)

  // ── Runs of one tree ──────────────────────────────────────────────────────

  /** Something since the root began happened in this run. */
  ghost predicate Seen(c: Context, events: seq<Event>, root: Root) {
    exists j :: root.begins <= j < |events| && events[j].context == c
  }

  ghost predicate ParentSeen(c: Context, events: seq<Event>, root: Root) {
    exists j :: root.begins <= j < |events| && c.parent == Some(events[j].context.runId)
  }

  /** A run a service may hand on: the root, or one it can have been in. */
  ghost predicate IsHeld(c: Context, events: seq<Event>, root: Root) { c == root.run || Seen(c, events, root) }

  /** The root itself, or a run of its actor with a number of its own, begun
      inside a run of the tree that was under way. */
  ghost predicate Heir(c: Context, events: seq<Event>, nextRun: nat, root: Root) {
    && c.actor == root.run.actor
    && (c == root.run || (root.firstRun <= c.runId < nextRun && ParentSeen(c, events, root)))
  }

  /** All that happened since the root began did so in heirs of what came before. */
  ghost predicate Family(t: Thread, root: Root) {
    && root.begins <= |t.events|
    && forall i | root.begins <= i < |t.events| :: Heir(t.events[i].context, t.events[..i], t.nextRun, root)
  }

  ghost predicate Heirs(contexts: Contexts, t: Thread, root: Root) {
    forall r | r in contexts :: Heir(contexts[r], t.events, t.nextRun, root)
  }

  // ── Calls that stay in the tree ───────────────────────────────────────────

  /** Nothing that is executed begins a run of its own: calls go into the
      pipelines services hold, onward in a runtime that is in a pass, or under a
      run that is held when the call is made. */
  ghost predicate Inside(call: Call, host: nat, contexts: Contexts, t: Thread, root: Root)
    decreases call
  {
    && (match call
        case Process(_, _, given, _) => given.Some? && IsHeld(given.value, t.events, root)
        case ProcessAt(_, _, _, given, _) => given.Some? && IsHeld(given.value, t.events, root)
        case ProcessFrom(r, _, _, given, _) => if given.Some? then IsHeld(given.value, t.events, root) else r in contexts
        case Nested(_, _, _) => host in contexts)
    && PassInside(call, host, contexts, t, root)
  }

  /** What the services of a call's pass do stays in the tree. */
  ghost predicate PassInside(call: Call, host: nat, contexts: Contexts, t: Thread, root: Root)
    decreases call, 0
  {
    From(call).Some? ==>
      var (context, begun) := RunOf(call, host, contexts, t);
      VisitsInside(call.runtime, call.order[From(call).value..], call.steps, contexts[call.runtime := context], begun, root)
  }

  ghost predicate VisitsInside(r: nat, uuids: seq<string>, steps: seq<Step>, contexts: Contexts, t: Thread, root: Root)
    requires r in contexts
    decreases steps
  {
    uuids != [] && steps != [] ==>
      && VisitInside(r, uuids[0], steps[0], contexts, t, root)
      && var v := Visit(r, uuids[0], steps[0], contexts, t);
      v.Goes? ==> VisitsInside(r, uuids[1..], steps[1..], contexts, v.thread, root)
  }

  ghost predicate VisitInside(r: nat, uuid: string, step: Step, contexts: Contexts, t: Thread, root: Root)
    requires r in contexts
    decreases step
  {
    var now := t.now + step.waited;
    !Expired(contexts[r], now) && step.present ==>
      ServeInside(step.calls, r, contexts, Start(t, r, uuid, contexts[r], now), root)
  }

  ghost predicate ServeInside(calls: seq<Made>, host: nat, contexts: Contexts, t: Thread, root: Root)
    decreases calls
  {
    calls != [] ==>
      var first := calls[0];
      assert first.call < first;
      && Inside(first.call, host, contexts, t, root)
      && var d := Make(first.call, host, contexts, t);
      (d.raised && !first.caught) || ServeInside(calls[1..], host, contexts, d.thread, root)
  }

  // ── Heirs stay heirs ──────────────────────────────────────────────────────

  lemma HeirLater(c: Context, t: Thread, u: Thread, root: Root)
    requires Heir(c, t.events, t.nextRun, root) && t.events <= u.events && t.nextRun <= u.nextRun
    ensures Heir(c, u.events, u.nextRun, root)
  {
    if c != root.run {
      var j :| root.begins <= j < |t.events| && c.parent == Some(t.events[j].context.runId);
      assert u.events[j] == t.events[j];
    }
  }

  lemma HeirsLater(contexts: Contexts, t: Thread, u: Thread, root: Root)
    requires Heirs(contexts, t, root) && t.events <= u.events && t.nextRun <= u.nextRun
    ensures Heirs(contexts, u, root)
  {
    forall r | r in contexts
      ensures Heir(contexts[r], u.events, u.nextRun, root)
    {
      HeirLater(contexts[r], t, u, root);
    }
  }

  lemma SeenLater(c: Context, t: Thread, u: Thread, root: Root)
    requires Seen(c, t.events, root) && t.events <= u.events
    ensures Seen(c, u.events, root)
  {
    var j :| root.begins <= j < |t.events| && t.events[j].context == c;
    assert u.events[j] == t.events[j];
  }

  /** One more event, in an heir. */
  lemma FamilyGrows(t: Thread, u: Thread, e: Event, root: Root)
    requires Family(t, root) && Heir(e.context, t.events, t.nextRun, root)
    requires u.events == t.events + [e] && u.nextRun == t.nextRun
    ensures Family(u, root) && Seen(e.context, u.events, root)
  {
    forall i | root.begins <= i < |u.events|
      ensures Heir(u.events[i].context, u.events[..i], u.nextRun, root)
    {
      assert u.events[..i] == t.events[..i];
    }
    assert u.events[|t.events|].context == e.context;
  }

  lemma HeldIsHeir(c: Context, t: Thread, root: Root)
    requires Family(t, root) && IsHeld(c, t.events, root)
    ensures Heir(c, t.events, t.nextRun, root)
  {
    if c != root.run {
      var j :| root.begins <= j < |t.events| && t.events[j].context == c;
      var earlier := t.(events := t.events[..j]);
      HeirLater(c, earlier, t, root);
    }
  }

  /** The run a call of the tree is made under is an heir. */
  lemma RunIsHeir(call: Call, host: nat, contexts: Contexts, t: Thread, root: Root)
    requires Family(t, root) && Heirs(contexts, t, root) && Inside(call, host, contexts, t, root)
    requires call.Nested? ==> host in contexts && Seen(contexts[host], t.events, root)
    requires root.firstRun <= t.nextRun
    ensures var (c, begun) := RunOf(call, host, contexts, t);
            && begun.events == t.events && t.nextRun <= begun.nextRun
            && Heir(c, begun.events, begun.nextRun, root)
  {
    if call.Nested? {
      var j :| root.begins <= j < |t.events| && t.events[j].context == contexts[host];
      assert ParentSeen(RunOf(call, host, contexts, t).0, t.events, root);
    } else if call.given.Some? {
      HeldIsHeir(call.given.value, t, root);
    }
  }

  // ── The tree ──────────────────────────────────────────────────────────────

  /** Every run of a tree of calls that stays inside is an heir of its root. */
  lemma {:induction false} MakeInherits(call: Call, host: nat, contexts: Contexts, t: Thread, root: Root)
    requires Family(t, root) && Heirs(contexts, t, root) && Inside(call, host, contexts, t, root)
    requires call.Nested? ==> host in contexts && Seen(contexts[host], t.events, root)
    requires root.firstRun <= t.nextRun
    ensures Family(Make(call, host, contexts, t).thread, root)
    decreases call
  {
    if From(call).Some? {
      var (c, begun) := RunOf(call, host, contexts, t);
      RunIsHeir(call, host, contexts, t, root);
      BegunKeeps(contexts, t, begun, root);
      VisitsInherit(call.runtime, call.order[From(call).value..], call.steps, contexts[call.runtime := c], begun, root);
    }
  }

  lemma BegunKeeps(contexts: Contexts, t: Thread, begun: Thread, root: Root)
    requires Family(t, root) && Heirs(contexts, t, root)
    requires begun.events == t.events && t.nextRun <= begun.nextRun
    ensures Family(begun, root) && Heirs(contexts, begun, root)
  {
    HeirsLater(contexts, t, begun, root);
  }

  lemma {:induction false} VisitsInherit(r: nat, uuids: seq<string>, steps: seq<Step>, contexts: Contexts, t: Thread, root: Root)
    requires r in contexts && Family(t, root) && Heirs(contexts, t, root) && root.firstRun <= t.nextRun
    requires VisitsInside(r, uuids, steps, contexts, t, root)
    ensures Family(Visits(r, uuids, steps, contexts, t).thread, root)
    decreases steps
  {
    if uuids != [] && steps != [] {
      VisitInherits(r, uuids[0], steps[0], contexts, t, root);
      var v := Visit(r, uuids[0], steps[0], contexts, t);
      if v.Goes? {
        VisitFollows(r, uuids[0], steps[0], contexts, t);
        HeirsLater(contexts, t, v.thread, root);
        VisitsInherit(r, uuids[1..], steps[1..], contexts, v.thread, root);
      }
    }
  }

  lemma {:induction false} VisitInherits(r: nat, uuid: string, step: Step, contexts: Contexts, t: Thread, root: Root)
    requires r in contexts && Family(t, root) && Heirs(contexts, t, root) && root.firstRun <= t.nextRun
    requires VisitInside(r, uuid, step, contexts, t, root)
    ensures Family(ThreadOf(Visit(r, uuid, step, contexts, t)), root)
    decreases step
  {
    var now := t.now + step.waited;
    if !Expired(contexts[r], now) && step.present {
      var begun := Start(t, r, uuid, contexts[r], now);
      FamilyGrows(t, begun, Started(r, uuid, contexts[r], now), root);
      HeirsLater(contexts, t, begun, root);
      ServeInherits(step.calls, r, contexts, begun, root);
      ServeFollows(step.calls, r, contexts, begun);
      var served := Serve(step.calls, r, contexts, begun).thread;
      HeirsLater(contexts, begun, served, root);
      FamilyGrows(served, Report(served, r, uuid, contexts[r]), Reported(r, uuid, contexts[r], served.now), root);
    }
  }

  lemma {:induction false} ServeInherits(calls: seq<Made>, host: nat, contexts: Contexts, t: Thread, root: Root)
    requires host in contexts && Family(t, root) && Heirs(contexts, t, root) && root.firstRun <= t.nextRun
    requires ServeInside(calls, host, contexts, t, root) && Seen(contexts[host], t.events, root)
    ensures Family(Serve(calls, host, contexts, t).thread, root)
    decreases calls
  {
    if calls != [] {
      var first := calls[0];
      assert first.call < first;
      MakeInherits(first.call, host, contexts, t, root);
      var d := Make(first.call, host, contexts, t);
      if !d.raised || first.caught {
        MakeFollows(first.call, host, contexts, t);
        HeirsLater(contexts, t, d.thread, root);
        SeenLater(contexts[host], t, d.thread, root);
        ServeInherits(calls[1..], host, contexts, d.thread, root);
      }
    }
  }

  // ── What a run means for everything it leads to ───────────────────────────

  /** The run a call is made under by a thread that is in no pass, whether it is
      given or begins with the call. */
  function RootOf(call: Call, t: Thread): Root {
    var (run, begun) := RunOf(call, 0, map[], t);
    Root(run, |t.events|, begun.nextRun)
  }

  /** Whatever the services of a pass call, as long as it stays in the tree:
      everything the pass leads to happens in its run or in a child, with a number
      of its own, of a run it led to before; it has the run's actor, and nothing
      starts once that actor's deadline has passed. */
  lemma RunsInheritTheirActor(call: Call, t: Thread)
    requires !call.Nested? && PassInside(call, 0, map[], t, RootOf(call, t))
    ensures var t', root := Make(call, 0, map[], t).thread, RootOf(call, t);
            && root.run == (if call.given.Some? then call.given.value else Context(t.nextRun, Source("board"), None))
            && t.events <= t'.events
            && forall i | |t.events| <= i < |t'.events| ::
                 var e, c := t'.events[i], t'.events[i].context;
                 && c.actor == root.run.actor
                 && (c == root.run || (root.firstRun <= c.runId < t'.nextRun && ParentSeen(c, t'.events[..i], root)))
                 && (e.Started? && c.actor.Person? ==> e.at < root.run.actor.expiresAt)
  {
    var t', root := Make(call, 0, map[], t).thread, RootOf(call, t);
    MakeFollows(call, 0, map[], t);
    if From(call).Some? {
      var (run, begun) := RunOf(call, 0, map[], t);
      VisitsInherit(call.runtime, call.order[From(call).value..], call.steps, map[call.runtime := run], begun, root);
      forall i | |t.events| <= i < |t'.events|
        ensures OnTime(t'.events[i]) && Heir(t'.events[i].context, t'.events[..i], t'.nextRun, root)
      {
      }
    }
  }

  /** A service may hand back the run it is in, at any depth and at any time
      after it started: what Spread does with the run it asked its host for. */
  lemma OwnRunIsHeld(r: nat, uuid: string, contexts: Contexts, t: Thread, now: nat, u: Thread, root: Root)
    requires r in contexts && root.begins <= |t.events| && Start(t, r, uuid, contexts[r], now).events <= u.events
    ensures IsHeld(contexts[r], u.events, root)
  {
    assert u.events[|t.events|] == Started(r, uuid, contexts[r], now);
  }
}
