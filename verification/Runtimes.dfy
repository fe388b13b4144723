/** The runtimes one thread calls into. Each keeps the run that is current in it
    and restores the one before on the way out, however a pass ends: proved to do
    exactly what passing the run down would. */
module Runtimes {
  import opened Strings
  import opened Runs

  class Runtimes {
    var contexts: Contexts
    var now: nat
    var nextRun: nat
    var events: seq<Event>

    ghost function State(): Thread reads this { Thread(now, nextRun, events) }

    constructor ()
      ensures contexts == map[] && State() == Thread(0, 0, [])
    {
      contexts, now, nextRun, events := map[], 0, 0, [];
    }

    method NewRun() returns (context: Context)
      modifies this`nextRun
      ensures (context, State()) == Begun(None, old(State()))
    {
      context := Context(nextRun, Source("board"), None);
      nextRun := nextRun + 1;
    }

    method ChildRun(parent: Option<Context>) returns (context: Context)
      modifies this`nextRun
      ensures (context, State()) == Runs.ChildRun(parent, old(State()))
    {
      if parent.None? {
        context := NewRun();
      } else {
        context := Context(nextRun, parent.value.actor, Some(parent.value.runId));
        nextRun := nextRun + 1;
      }
    }

    /** A call made by a service of `host`: whatever it does and however it ends,
        every runtime's current run is afterwards the one it was before. */
    method Make(call: Call, host: nat) returns (raised: bool)
      modifies this
      ensures contexts == old(contexts)
      ensures Done(State(), raised) == Runs.Make(call, host, old(contexts), old(State()))
      decreases call
    {
      var context: Context;
      match call {
        case Process(r, order, given, steps) =>
          context := Given(given);
          raised := WithContext(r, context, order, steps);
        case ProcessAt(r, order, at, given, steps) =>
          if at !in order {
            return true;
          }
          context := Given(given);
          raised := WithContext(r, context, order[IndexOf(order, at)..], steps);
        case ProcessFrom(r, order, after, given, steps) =>
          var start := if after in order then IndexOf(order, after) + 1 else |order|;
          context := Given(if given.Some? then given else Current(contexts, r));
          raised := WithContext(r, context, order[start..], steps);
        case Nested(r, order, steps) =>
          context := ChildRun(Current(contexts, host));
          raised := WithContext(r, context, order, steps);
      }
    }

    method Given(given: Option<Context>) returns (context: Context)
      modifies this`nextRun
      ensures (context, State()) == Begun(given, old(State()))
    {
      if given.Some? {
        context := given.value;
      } else {
        context := NewRun();
      }
    }

    method WithContext(r: nat, context: Context, uuids: seq<string>, steps: seq<Step>) returns (raised: bool)
      modifies this
      ensures contexts == old(contexts)
      ensures Done(State(), raised) == Visits(r, uuids, steps, old(contexts)[r := context], old(State()))
      decreases steps, 1
    {
      var previous := Current(contexts, r);
      contexts := contexts[r := context];
      raised := ProcessFromIndex(r, uuids, steps);
      contexts := if previous.Some? then contexts[r := previous.value] else contexts - {r};
    }

    method ProcessFromIndex(r: nat, uuids: seq<string>, steps: seq<Step>) returns (raised: bool)
      requires r in contexts
      modifies this
      ensures contexts == old(contexts)
      ensures Done(State(), raised) == Visits(r, uuids, steps, old(contexts), old(State()))
      decreases steps, 0
    {
      ghost var all := Visits(r, uuids, steps, contexts, State());
      for i := 0 to |uuids|
        invariant contexts == old(contexts)
        invariant Visits(r, uuids[i..], After(steps, i), contexts, State()) == all
      {
        if i >= |steps| {
          break;
        }
        assert uuids[i..][0] == uuids[i] && uuids[i..][1..] == uuids[i + 1..];
        var ended;
        ended, raised := VisitService(r, uuids[i], steps[i]);
        if ended {
          return;
        }
      }
      raised := false;
    }

    method VisitService(r: nat, uuid: string, step: Step) returns (ended: bool, raised: bool)
      requires r in contexts
      modifies this
      ensures contexts == old(contexts)
      ensures var v := Visit(r, uuid, step, old(contexts), old(State()));
              ended == v.Ends? && (if ended then v.done == Done(State(), raised) else v.thread == State())
      decreases step
    {
      now := now + step.waited;
      if Expired(contexts[r], now) {
        return true, false;
      }
      if !step.present {
        return false, false;
      }
      events := events + [Started(r, uuid, contexts[r], now)];
      raised := Serve(step.calls, r);
      if raised || step.outcome.Raises? {
        return true, true;
      }
      events := events + [Reported(r, uuid, contexts[r], now)];
      ended := step.outcome.Stops?;
    }

    static function After(steps: seq<Step>, i: nat): (left: seq<Step>)
      ensures i < |steps| ==> left != [] && left[0] == steps[i] && left[1..] == steps[i + 1..]
      ensures i >= |steps| ==> left == []
    {
      if i <= |steps| then steps[i..] else []
    }

    method Serve(calls: seq<Made>, host: nat) returns (raised: bool)
      modifies this
      ensures contexts == old(contexts)
      ensures Done(State(), raised) == Runs.Serve(calls, host, old(contexts), old(State()))
      decreases calls
    {
      ghost var all := Runs.Serve(calls, host, contexts, State());
      for i := 0 to |calls|
        invariant contexts == old(contexts)
        invariant Runs.Serve(calls[i..], host, contexts, State()) == all
      {
        var made := calls[i];
        assert calls[i..][0] == made && calls[i..][1..] == calls[i + 1..];
        assert made.call < made;
        raised := Make(made.call, host);
        if raised && !made.caught {
          return;
        }
      }
      raised := false;
    }
  }
}
