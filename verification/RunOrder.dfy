/** Which services a call gets to, in which order, and when it raises. */
module RunOrder {
  import opened Strings
  import opened Runs

  // ── Order ─────────────────────────────────────────────────────────────────

  /** The services a call is for: all of them, or those from a service on, or
      those after it. */
  ghost predicate AreFor(call: Call, uuids: seq<string>) {
    match call
    case Process(_, order, _, _) => uuids == order
    case Nested(_, order, _) => uuids == order
    case ProcessAt(_, order, at, _, _) =>
      && uuids != [] && uuids[0] == at
      && exists before: seq<string> :: order == before + uuids && at !in before
    case ProcessFrom(_, order, after, _, _) =>
      if after in order then exists before: seq<string> :: order == before + [after] + uuids && after !in before
      else uuids == []
  }

  lemma IndexBehind(before: seq<string>, uuid: string, rest: seq<string>)
    requires uuid !in before
    ensures var order := before + [uuid] + rest;
            && uuid in order && IndexOf(order, uuid) == |before|
            && order[|before|..] == [uuid] + rest && order[|before| + 1..] == rest
  {
    var order := before + [uuid] + rest;
    var i := IndexOf(order, uuid);
    assert order[|before|] == uuid;
    assert forall j | 0 <= j < |before| :: order[j] == before[j];
    forall j | 0 <= j < i
      ensures order[j] != uuid
    {
      assert order[j] in order[..i];
    }
  }

  /** A call begins where its services do. */
  lemma BeginsAt(call: Call, uuids: seq<string>)
    requires AreFor(call, uuids)
    ensures From(call).Some? && call.order[From(call).value..] == uuids
  {
    match call
    case Process(_, order, _, _) => assert order[0..] == order;
    case Nested(_, order, _) => assert order[0..] == order;
    case ProcessAt(_, order, at, _, _) =>
      var before: seq<string> :| order == before + uuids && at !in before;
      assert uuids == [at] + uuids[1..] && order == before + [at] + uuids[1..];
      IndexBehind(before, at, uuids[1..]);
    case ProcessFrom(_, order, after, _, _) =>
      if after in order {
        var before: seq<string> :| order == before + [after] + uuids && after !in before;
        IndexBehind(before, after, uuids);
      } else {
        assert order[|order|..] == [];
      }
  }

  predicate IsQuiet(step: Step) { step.present && step.calls == [] && step.outcome.Goes? }

  /** Services that only take their time, one after another until the deadline. */
  function QuietEvents(r: nat, uuids: seq<string>, steps: seq<Step>, c: Context, now: nat): seq<Event>
    requires |uuids| <= |steps|
  {
    if uuids == [] then []
    else
      var at := now + steps[0].waited;
      if c.actor.Person? && c.actor.expiresAt <= at then []
      else [Started(r, uuids[0], c, at), Reported(r, uuids[0], c, at)] + QuietEvents(r, uuids[1..], steps[1..], c, at)
  }

  lemma {:induction false} QuietVisits(r: nat, uuids: seq<string>, steps: seq<Step>, contexts: Contexts, t: Thread)
    requires r in contexts && |uuids| <= |steps| && forall i | 0 <= i < |uuids| :: IsQuiet(steps[i])
    ensures var d := Visits(r, uuids, steps, contexts, t);
            !d.raised && d.thread.events == t.events + QuietEvents(r, uuids, steps, contexts[r], t.now)
  {
    if uuids != [] {
      var c, at := contexts[r], t.now + steps[0].waited;
      assert IsQuiet(steps[0]);
      if !(c.actor.Person? && c.actor.expiresAt <= at) {
        var two := [Started(r, uuids[0], c, at), Reported(r, uuids[0], c, at)];
        var v := Visit(r, uuids[0], steps[0], contexts, t);
        var begun := Start(t, r, uuids[0], c, at);
        assert Serve(steps[0].calls, r, contexts, begun) == Done(begun, false);
        assert v == Visited.Goes(Report(begun, r, uuids[0], c));
        assert v.Goes? && v.thread.now == at && v.thread.events == t.events + two;
        QuietVisits(r, uuids[1..], steps[1..], contexts, v.thread);
        Regroup(t.events, two, QuietEvents(r, uuids[1..], steps[1..], c, at));
      }
    }
  }

  /** A call made under a run, of services that make no calls of their own,
      starts and reports each of the services it is for, in their order, until
      the deadline of the run. */
  lemma QuietCall(call: Call, host: nat, contexts: Contexts, t: Thread, uuids: seq<string>)
    requires !call.Nested? && call.given.Some? && AreFor(call, uuids)
    requires |uuids| <= |call.steps| && forall i | 0 <= i < |uuids| :: IsQuiet(call.steps[i])
    ensures var d := Make(call, host, contexts, t);
            && !d.raised
            && d.thread.events == t.events + QuietEvents(call.runtime, uuids, call.steps, call.given.value, t.now)
  {
    BeginsAt(call, uuids);
    QuietVisits(call.runtime, uuids, call.steps, contexts[call.runtime := call.given.value], t);
  }

  /** Entering at a service that is not there raises, and nothing happens. */
  lemma NotThereRaises(call: Call, host: nat, contexts: Contexts, t: Thread)
    requires call.ProcessAt? && call.at !in call.order
    ensures Make(call, host, contexts, t) == Done(t, true)
  {
  }

  // ── Raising ───────────────────────────────────────────────────────────────

  /** After the calls, each made whatever the others did. */
  function Thereafter(calls: seq<Made>, host: nat, contexts: Contexts, t: Thread): Thread {
    if calls == [] then t
    else
      var n := |calls| - 1;
      Make(calls[n].call, host, contexts, Thereafter(calls[..n], host, contexts, t)).thread
  }

  /** The call raises, and the service that makes it lets that through. */
  predicate Raising(calls: seq<Made>, i: nat, host: nat, contexts: Contexts, t: Thread)
    requires i < |calls|
  {
    !calls[i].caught && Make(calls[i].call, host, contexts, Thereafter(calls[..i], host, contexts, t)).raised
  }

  lemma {:induction false} ThereafterFirst(calls: seq<Made>, host: nat, contexts: Contexts, t: Thread)
    requires calls != []
    ensures Thereafter(calls, host, contexts, t) ==
            Thereafter(calls[1..], host, contexts, Make(calls[0].call, host, contexts, t).thread)
    decreases |calls|
  {
    var n := |calls| - 1;
    if n > 0 {
      ThereafterFirst(calls[..n], host, contexts, t);
      assert calls[..n][1..] == calls[1..][..n - 1];
    } else {
      assert calls[..0] == [] && calls[1..] == [];
      assert Thereafter(calls[..0], host, contexts, t) == t;
    }
  }

  lemma RaisingLater(calls: seq<Made>, i: nat, host: nat, contexts: Contexts, t: Thread)
    requires 0 < i < |calls|
    ensures Raising(calls, i, host, contexts, t) <==>
            Raising(calls[1..], i - 1, host, contexts, Make(calls[0].call, host, contexts, t).thread)
  {
    ThereafterFirst(calls[..i], host, contexts, t);
    assert calls[..i][1..] == calls[1..][..i - 1];
  }

  /** A service ends by raising exactly if one of its calls raises what it does
      not catch; otherwise it has made all of them. */
  lemma {:induction false} ServeRaises(calls: seq<Made>, host: nat, contexts: Contexts, t: Thread)
    ensures var d := Serve(calls, host, contexts, t);
            && (d.raised <==> exists i | 0 <= i < |calls| :: Raising(calls, i, host, contexts, t))
            && (!d.raised ==> d.thread == Thereafter(calls, host, contexts, t))
    decreases |calls|
  {
    if calls != [] {
      var first := Make(calls[0].call, host, contexts, t);
      assert calls[..0] == [];
      assert Raising(calls, 0, host, contexts, t) <==> first.raised && !calls[0].caught;
      ServeRaises(calls[1..], host, contexts, first.thread);
      ThereafterFirst(calls, host, contexts, t);
      if i :| 0 < i < |calls| && Raising(calls, i, host, contexts, t) {
        RaisingLater(calls, i, host, contexts, t);
      }
      if i :| 0 <= i < |calls| - 1 && Raising(calls[1..], i, host, contexts, first.thread) {
        RaisingLater(calls, i + 1, host, contexts, t);
      }
    }
  }

  /** A service that started ends its pass by raising exactly if it raises or a
      call of its does; one that raises is not reported. */
  lemma VisitRaises(r: nat, uuid: string, step: Step, contexts: Contexts, t: Thread)
    requires r in contexts && step.present
    requires contexts[r].actor.Person? ==> t.now + step.waited < contexts[r].actor.expiresAt
    ensures var at := t.now + step.waited;
            var begun := t.(now := at, events := t.events + [Started(r, uuid, contexts[r], at)]);
            var made, v := Thereafter(step.calls, r, contexts, begun), Visit(r, uuid, step, contexts, t);
            var raises := exists i | 0 <= i < |step.calls| :: Raising(step.calls, i, r, contexts, begun);
            if raises || step.outcome.Raises? then
              v.Ends? && v.done.raised && (!raises ==> v.done.thread == made)
            else
              && ThreadOf(v) == made.(events := made.events + [Reported(r, uuid, contexts[r], made.now)])
              && (v.Ends? <==> step.outcome.Stops?) && (v.Ends? ==> !v.done.raised)
  {
    ServeRaises(step.calls, r, contexts, Start(t, r, uuid, contexts[r], t.now + step.waited));
  }
}
