/** Runs and who began them: what a tree of calls into runtimes does when the
    current run is passed down to every pass, instead of being kept by each
    runtime and restored. Calls are those one thread makes. */
module Runs {
  import opened Strings

  datatype Actor = Person(sub: string, expiresAt: int) | Source(kind: string)

  /** A run is a number here, as new ones are never repeated. */
  datatype Context = Context(runId: nat, actor: Actor, parent: Option<nat>)

  /** A call into a runtime, `order` being its list as it then stands and `steps`
      what the services it gets to do, in order; those it says nothing of are
      gone. `Nested` is a service entering a
      pipeline of its own. */
  datatype Call =
    | Process(runtime: nat, order: seq<string>, given: Option<Context>, steps: seq<Step>)
    | ProcessAt(runtime: nat, order: seq<string>, at: string, given: Option<Context>, steps: seq<Step>)
    | ProcessFrom(runtime: nat, order: seq<string>, after: string, given: Option<Context>, steps: seq<Step>)
    | Nested(runtime: nat, order: seq<string>, steps: seq<Step>)

  /** What one service does in a pass: the time since the one before it, whether
      it is still there, the calls it makes and how it ends. */
  datatype Step = Step(waited: nat, present: bool, calls: seq<Made>, outcome: Outcome)

  /** A call a service makes, and whether it catches what that raises. */
  datatype Made = Made(call: Call, caught: bool)

  datatype Outcome = Goes | Stops | Raises

  /** A service was started, or what it returned was reported; with the run that
      was current then. */
  datatype Event =
    | Started(runtime: nat, uuid: string, context: Context, at: nat)
    | Reported(runtime: nat, uuid: string, context: Context, at: nat)

  datatype Thread = Thread(now: nat, nextRun: nat, events: seq<Event>)

  datatype Done = Done(thread: Thread, raised: bool)

  datatype Visited = Goes(thread: Thread) | Ends(done: Done)

  type Contexts = map<nat, Context>

  /** Person authority ends at its deadline. */
  predicate Expired(context: Context, now: int) {
    context.actor.Person? && context.actor.expiresAt <= now
  }

  /** The index of a service in a runtime's list, or the list's length. */
  function IndexOf(order: seq<string>, uuid: string): (i: nat)
    ensures i <= |order|
    ensures i < |order| ==> order[i] == uuid
    ensures uuid !in order[..i]
  {
    if order == [] || order[0] == uuid then 0
    else
      var i := 1 + IndexOf(order[1..], uuid);
      assert order[..i] == [order[0]] + order[1..][..i - 1];
      i
  }

  /** The run given, or one that begins here. */
  function Begun(given: Option<Context>, t: Thread): (Context, Thread) {
    if given.Some? then (given.value, t)
    else (Context(t.nextRun, Source("board"), None), t.(nextRun := t.nextRun + 1))
  }

  /** A new run with the parent's actor and number, or one begun afresh for want
      of a parent. */
  function ChildRun(parent: Option<Context>, t: Thread): (Context, Thread) {
    if parent.None? then Begun(None, t)
    else (Context(t.nextRun, parent.value.actor, Some(parent.value.runId)), t.(nextRun := t.nextRun + 1))
  }

  function Current(contexts: Contexts, runtime: nat): Option<Context> {
    if runtime in contexts then Some(contexts[runtime]) else None
  }

  /** The run a call is made under. */
  function RunOf(call: Call, host: nat, contexts: Contexts, t: Thread): (Context, Thread) {
    match call
    case Process(_, _, given, _) => Begun(given, t)
    case ProcessAt(_, _, _, given, _) => Begun(given, t)
    case ProcessFrom(r, _, _, given, _) => Begun(if given.Some? then given else Current(contexts, r), t)
    case Nested(_, _, _) => ChildRun(Current(contexts, host), t)
  }

  /** Where in its list a call begins; None for a service that is not in it. */
  function From(call: Call): (i: Option<nat>)
    ensures i.Some? ==> i.value <= |call.order|
  {
    match call
    case Process(_, _, _, _) => Some(0)
    case ProcessAt(_, order, at, _, _) => if at in order then Some(IndexOf(order, at)) else None
    case ProcessFrom(_, order, after, _, _) => Some(if after in order then IndexOf(order, after) + 1 else |order|)
    case Nested(_, _, _) => Some(0)
  }

  /** A call made by a service of `host`. One at a service that is not there
      raises before any run begins. */
  function Make(call: Call, host: nat, contexts: Contexts, t: Thread): Done
    decreases call
  {
    if From(call).None? then Done(t, true)
    else
      var (context, begun) := RunOf(call, host, contexts, t);
      Visits(call.runtime, call.order[From(call).value..], call.steps, contexts[call.runtime := context], begun)
  }

  function Visits(r: nat, uuids: seq<string>, steps: seq<Step>, contexts: Contexts, t: Thread): Done
    requires r in contexts
    decreases steps
  {
    if uuids == [] || steps == [] then Done(t, false)
    else
      match Visit(r, uuids[0], steps[0], contexts, t)
      case Goes(u) => Visits(r, uuids[1..], steps[1..], contexts, u)
      case Ends(done) => done
  }

  /** One service of a pass: skipped when gone, and not even that once the run
      has passed its deadline. */
  function Visit(r: nat, uuid: string, step: Step, contexts: Contexts, t: Thread): Visited
    requires r in contexts
    decreases step
  {
    var now := t.now + step.waited;
    if Expired(contexts[r], now) then Ends(Done(t.(now := now), false))
    else if !step.present then Visited.Goes(t.(now := now))
    else
      var served := Serve(step.calls, r, contexts, Start(t, r, uuid, contexts[r], now));
      if served.raised || step.outcome.Raises? then Ends(Done(served.thread, true))
      else
        var reported := Report(served.thread, r, uuid, contexts[r]);
        if step.outcome.Stops? then Ends(Done(reported, false)) else Visited.Goes(reported)
  }

  function Start(t: Thread, r: nat, uuid: string, context: Context, now: nat): Thread {
    t.(now := now, events := t.events + [Started(r, uuid, context, now)])
  }

  function Report(t: Thread, r: nat, uuid: string, context: Context): Thread {
    t.(events := t.events + [Reported(r, uuid, context, t.now)])
  }

  function Serve(calls: seq<Made>, host: nat, contexts: Contexts, t: Thread): Done
    decreases calls
  {
    if calls == [] then Done(t, false)
    else
      var first := calls[0];
      assert first.call < first;
      var d := Make(first.call, host, contexts, t);
      if d.raised && !first.caught then d else Serve(calls[1..], host, contexts, d.thread)
  }

  // ── Nothing starts late ───────────────────────────────────────────────────

  ghost predicate OnTime(e: Event) { e.Started? ==> !Expired(e.context, e.at) }

  /** Time and run numbers only grow, what happened stays, and nothing new was
      started late. */
  ghost predicate Follows(t: Thread, t': Thread) {
    && t.now <= t'.now && t.nextRun <= t'.nextRun && t.events <= t'.events
    && (forall i | |t.events| <= i < |t'.events| :: OnTime(t'.events[i]) && t.now <= t'.events[i].at <= t'.now)
  }

  lemma FollowsOn(t: Thread, u: Thread, v: Thread)
    requires Follows(t, u) && Follows(u, v)
    ensures Follows(t, v)
  {
  }

  /** No service starts, at any depth, once the run it would start in has passed
      its deadline. */
  lemma {:induction false} MakeFollows(call: Call, host: nat, contexts: Contexts, t: Thread)
    ensures Follows(t, Make(call, host, contexts, t).thread)
    decreases call
  {
    if From(call).Some? {
      var (context, begun) := RunOf(call, host, contexts, t);
      VisitsFollow(call.runtime, call.order[From(call).value..], call.steps, contexts[call.runtime := context], begun);
    }
  }

  lemma {:induction false} VisitsFollow(r: nat, uuids: seq<string>, steps: seq<Step>, contexts: Contexts, t: Thread)
    requires r in contexts
    ensures Follows(t, Visits(r, uuids, steps, contexts, t).thread)
    decreases steps
  {
    if uuids != [] && steps != [] {
      VisitFollows(r, uuids[0], steps[0], contexts, t);
      var v := Visit(r, uuids[0], steps[0], contexts, t);
      if v.Goes? {
        VisitsFollow(r, uuids[1..], steps[1..], contexts, v.thread);
      }
    }
  }

  function ThreadOf(v: Visited): Thread { if v.Goes? then v.thread else v.done.thread }

  lemma {:induction false} VisitFollows(r: nat, uuid: string, step: Step, contexts: Contexts, t: Thread)
    requires r in contexts
    ensures Follows(t, ThreadOf(Visit(r, uuid, step, contexts, t)))
    decreases step
  {
    var now := t.now + step.waited;
    if !Expired(contexts[r], now) && step.present {
      var begun := Start(t, r, uuid, contexts[r], now);
      ServeFollows(step.calls, r, contexts, begun);
      var served := Serve(step.calls, r, contexts, begun).thread;
      FollowsOn(t, begun, served);
      FollowsOn(t, served, Report(served, r, uuid, contexts[r]));
    }
  }

  lemma {:induction false} ServeFollows(calls: seq<Made>, host: nat, contexts: Contexts, t: Thread)
    ensures Follows(t, Serve(calls, host, contexts, t).thread)
    decreases calls
  {
    if calls != [] {
      var first := calls[0];
      assert first.call < first;
      MakeFollows(first.call, host, contexts, t);
      ServeFollows(calls[1..], host, contexts, Make(first.call, host, contexts, t).thread);
    }
  }
}
