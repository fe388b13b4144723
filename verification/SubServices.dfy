/** Services that hold a pipeline, and the runtimes they are in: what their
    operations change and find, proved against the steps and lookups. */
module SubServices {
  import opened Strings
  import opened Addresses
  import opened Reports

  class Host {
    var runtimes: seq<Runtime>
    var scopes: seq<Scope>

    function Now(): State reads this { State(runtimes, scopes) }

    /** What every step keeps: each live pipeline registered with once, by its own
        scope, and nobody registered with one that was replaced. */
    ghost predicate Valid() reads this { Inv(Now()) }

    constructor ()
      ensures Now() == State([], []) && Valid()
    {
      runtimes, scopes := [], [];
    }

    method RegisterTarget(r: nat, target: Target)
      requires r < |runtimes|
      modifies this
      ensures Now() == WithTargets(old(Now()), r, Register(old(runtimes)[r].targets, target))
    {
      if target !in runtimes[r].targets {
        runtimes := runtimes[r := runtimes[r].(targets := runtimes[r].targets + [target])];
      }
    }

    method DiscardTarget(r: nat, target: Target)
      requires r < |runtimes|
      modifies this
      ensures Now() == WithTargets(old(Now()), r, Discard(old(runtimes)[r].targets, target))
    {
      runtimes := runtimes[r := runtimes[r].(targets := Discard(runtimes[r].targets, target))];
    }

    method ReleaseNotifications(c: nat)
      requires c < |scopes|
      modifies this
      ensures Now() == Release(old(Now()), c)
    {
      var handle := scopes[c].handle;
      if handle.Some? && handle.value < |runtimes| {
        DiscardTarget(handle.value, Carry(c));
      }
      scopes := scopes[c := scopes[c].(handle := None)];
    }

    method DestroyPipeline(c: nat)
      requires c < |scopes|
      requires Valid()
      modifies this
      ensures Valid()
      ensures Now() == Retire(old(Now()), c)
    {
      RetireKeeps(Now(), c);
      ReleaseNotifications(c);
      var pipeline := scopes[c].pipeline;
      if pipeline.Some? && pipeline.value < |runtimes| {
        runtimes := runtimes[pipeline.value := runtimes[pipeline.value].(services := [])];
        runtimes := runtimes[pipeline.value := runtimes[pipeline.value].(targets := [])];
      }
    }

    /** `_rebuild` up to the construction of the new pipeline. */
    method BeginRebuild(c: nat) returns (p: nat)
      requires c < |scopes|
      requires Valid()
      modifies this
      ensures Valid()
      ensures Now() == Take(old(Now()), Begin(c)) && p == |old(runtimes)|
    {
      StepInv(Now(), Begin(c));
      DestroyPipeline(c);
      p := |runtimes|;
      runtimes := runtimes + [Runtime(Some(c), [], [])];
      scopes := scopes[c := scopes[c].(building := Some(p))];
    }

    /** `_rebuild` from there: the pipeline is the new one, and carried out. */
    method FinishRebuild(c: nat)
      requires Enabled(Now(), Finish(c))
      requires Valid()
      modifies this
      ensures Valid()
      ensures Now() == Take(old(Now()), Finish(c))
    {
      StepInv(Now(), Finish(c));
      var p := scopes[c].building;
      scopes := scopes[c := scopes[c].(pipeline := p, building := None, handle := p)];
      if p.value < |runtimes| {
        RegisterTarget(p.value, Carry(c));
      }
    }

    method AddService(r: nat, uuid: string) returns (added: bool)
      requires Open(Now(), r)
      requires Valid()
      modifies this
      ensures Valid()
      ensures added == !Has(old(Now()), r, uuid)
      ensures Now() == if added then Take(old(Now()), AddPlain(r, uuid)) else old(Now())
    {
      if !Has(Now(), r, uuid) {
        StepInv(Now(), AddPlain(r, uuid));
      }
      added := IndexOf(runtimes[r].services, uuid) == |runtimes[r].services|;
      if added {
        runtimes := runtimes[r := runtimes[r].(services := runtimes[r].services + [Plain(uuid)])];
      }
    }

    /** A service's pipeline by its uuid, where it is one that holds one. */
    method FindPipeline(r: nat, uuid: string) returns (p: Option<nat>)
      ensures p == PipelineOf(Now(), r, uuid)
    {
      p := None;
      if r < |runtimes| {
        var i := IndexOf(runtimes[r].services, uuid);
        if i < |runtimes[r].services| && runtimes[r].services[i].Holder? {
          var c := runtimes[r].services[i].scope;
          if c < |scopes| && scopes[c].pipeline.Some? && r < scopes[c].pipeline.value < |runtimes| {
            p := scopes[c].pipeline;
          }
        }
      }
    }

    method Lookup(r: nat, address: string) returns (found: Option<Place>)
      ensures found == GetService(Now(), r, address)
      decreases |runtimes| - r, 1
    {
      if Has(Now(), r, address) {
        return Some(Place(r, address));
      }
      var segments := SplitAddress(address);
      if |segments| < 2 || !Has(Now(), r, segments[0]) {
        return None;
      }
      found := Descend(Place(r, segments[0]), segments[1..]);
    }

    method Descend(service: Place, segments: seq<string>) returns (found: Option<Place>)
      requires Has(Now(), service.runtime, service.uuid)
      ensures found == Addresses.Descend(Now(), service, segments)
      decreases |runtimes| - service.runtime, 0
    {
      var current := service;
      for i := 0 to |segments|
        invariant Has(Now(), current.runtime, current.uuid) && service.runtime <= current.runtime
        invariant Addresses.Descend(Now(), current, segments[i..]) == Addresses.Descend(Now(), service, segments)
      {
        assert segments[i..][0] == segments[i] && segments[i..][1..] == segments[i + 1..];
        var inner := FindPipeline(current.runtime, current.uuid);
        if inner.None? {
          return None;
        }
        var next := Lookup(inner.value, segments[i]);
        if next.None? {
          return None;
        }
        current := next.value;
      }
      found := Some(current);
    }

    /** Where `process_at` enters; None where it raises. */
    method ProcessAt(r: nat, address: string) returns (entered: Option<Place>)
      ensures entered == EnterAt(Now(), r, address)
      decreases |runtimes| - r
    {
      if Has(Now(), r, address) {
        return Some(Place(r, address));
      }
      var segments := SplitAddress(address);
      if |segments| <= 1 {
        return None;
      }
      var inner := FindPipeline(r, segments[0]);
      if inner.None? {
        return None;
      }
      entered := ProcessAt(inner.value, Join(segments[1..], SEPARATOR));
    }

    /** `_emit_notification`: every target in turn, scopes carrying on outward. */
    method Emit(r: nat, id: string) returns (heard: seq<Delivery>)
      requires r < |runtimes|
      ensures heard == Deliver(Now(), r, id)
      decreases r, 1
    {
      heard := [];
      var targets := runtimes[r].targets;
      for i := 0 to |targets|
        invariant heard + DeliverTo(Now(), r, targets[i..], id) == Deliver(Now(), r, id)
      {
        assert targets[i..][0] == targets[i] && targets[i..][1..] == targets[i + 1..];
        var told := TellTarget(r, targets[i], id);
        ghost var rest := DeliverTo(Now(), r, targets[i + 1..], id);
        assert heard + (told + rest) == heard + told + rest;
        heard := heard + told;
      }
    }

    method TellTarget(r: nat, target: Target, id: string) returns (heard: seq<Delivery>)
      requires r < |runtimes|
      ensures heard == Tell(Now(), r, target, id)
      decreases r, 0
    {
      heard := [];
      match target {
        case Listener(l) => heard := [Delivery(l, id)];
        case Carry(c) =>
          if c < |scopes| && scopes[c].attached && scopes[c].home < r {
            heard := Emit(scopes[c].home, JoinAddress(scopes[c].uuid, id));
          }
      }
    }
  }
}
