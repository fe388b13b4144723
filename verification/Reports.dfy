/** Reports from services at any depth: carried outward from pipeline to
    pipeline, whatever was built, rebuilt and destroyed before. */
module Reports {
  import opened Strings
  import opened Addresses

  // ── Carrying a report outward ─────────────────────────────────────────────

  datatype Delivery = Delivery(listener: nat, address: string)

  /** A runtime tells its targets in turn; a scope carries on, under its own
      name, what its pipeline reports to the runtime it is in. */
  function Deliver(s: State, r: nat, id: string): seq<Delivery>
    decreases r, 1, 0
  {
    if r < |s.runtimes| then DeliverTo(s, r, s.runtimes[r].targets, id) else []
  }

  function DeliverTo(s: State, r: nat, targets: seq<Target>, id: string): seq<Delivery>
    decreases r, 0, |targets|
  {
    if targets == [] then [] else Tell(s, r, targets[0], id) + DeliverTo(s, r, targets[1..], id)
  }

  function Tell(s: State, r: nat, target: Target, id: string): seq<Delivery>
    decreases r, 0, 0
  {
    match target
    case Listener(l) => [Delivery(l, id)]
    case Carry(c) =>
      if c < |s.scopes| && s.scopes[c].attached && s.scopes[c].home < r
      then Deliver(s, s.scopes[c].home, JoinAddress(s.scopes[c].uuid, id))
      else []
  }

  // ── Building, rebuilding and destroying ───────────────────────────────────

  /** One step at a time: a scope is created, given its host and listed; a
      pipeline begins to be built, the one before released and destroyed; what
      it is built of is added; it is finished and registered with. */
  datatype Step =
    | NewBoard
    | CreateScope(home: nat, uuid: string)
    | AddPlain(runtime: nat, uuid: string)
    | Attach(scope: nat)
    | Begin(scope: nat)
    | Finish(scope: nat)
    | DestroyScope(scope: nat)
    | RemoveService(runtime: nat, uuid: string)
    | DestroyBoard(runtime: nat)
    | Listen(runtime: nat, listener: nat)
    | Unlisten(runtime: nat, listener: nat)

  /** Services are added to a board, or to a pipeline being built. */
  predicate Open(s: State, r: nat) {
    && r < |s.runtimes|
    && (s.runtimes[r].owner.None? ||
        (s.runtimes[r].owner.value < |s.scopes| && s.scopes[s.runtimes[r].owner.value].building == Some(r)))
  }

  predicate IsBoard(s: State, r: nat) { r < |s.runtimes| && s.runtimes[r].owner.None? }

  predicate Enabled(s: State, step: Step) {
    match step
    case NewBoard => true
    case CreateScope(home, _) => Open(s, home)
    case AddPlain(r, uuid) => Open(s, r) && !Has(s, r, uuid)
    case Attach(c) =>
      && c < |s.scopes| && !s.scopes[c].attached
      && Open(s, s.scopes[c].home) && !Has(s, s.scopes[c].home, s.scopes[c].uuid)
    case Begin(c) => c < |s.scopes|
    case Finish(c) => c < |s.scopes| && s.scopes[c].building.Some?
    case DestroyScope(c) => c < |s.scopes|
    case RemoveService(r, uuid) => Has(s, r, uuid)
    case DestroyBoard(r) => IsBoard(s, r)
    case Listen(r, _) => IsBoard(s, r)
    case Unlisten(r, _) => IsBoard(s, r)
  }

  function Register(targets: seq<Target>, target: Target): seq<Target> {
    if target in targets then targets else targets + [target]
  }

  function Discard(targets: seq<Target>, target: Target): (left: seq<Target>)
    ensures forall t :: t in left <==> t in targets && t != target
  {
    if targets == [] then [] else (if targets[0] == target then [] else [targets[0]]) + Discard(targets[1..], target)
  }

  function WithTargets(s: State, r: nat, targets: seq<Target>): State {
    if r < |s.runtimes| then s.(runtimes := s.runtimes[r := s.runtimes[r].(targets := targets)]) else s
  }

  function WithServices(s: State, r: nat, services: seq<Service>): State {
    if r < |s.runtimes| then s.(runtimes := s.runtimes[r := s.runtimes[r].(services := services)]) else s
  }

  /** The scope's registration with its pipeline, given up if it has one. */
  function Release(s: State, c: nat): (t: State)
    requires c < |s.scopes|
    ensures |t.scopes| == |s.scopes| && |t.runtimes| == |s.runtimes|
  {
    var handle := s.scopes[c].handle;
    if handle.None? || handle.value >= |s.runtimes| then s.(scopes := s.scopes[c := s.scopes[c].(handle := None)])
    else
      WithTargets(s, handle.value, Discard(s.runtimes[handle.value].targets, Carry(c)))
      .(scopes := s.scopes[c := s.scopes[c].(handle := None)])
  }

  function Clear(s: State, r: nat): (t: State)
    ensures |t.runtimes| == |s.runtimes| && t.scopes == s.scopes
  {
    WithTargets(WithServices(s, r, []), r, [])
  }

  /** A release, and the pipeline that was there destroyed. */
  function Retire(s: State, c: nat): (t: State)
    requires c < |s.scopes|
    ensures |t.scopes| == |s.scopes| && |t.runtimes| == |s.runtimes|
  {
    var pipeline := s.scopes[c].pipeline;
    if pipeline.Some? then Clear(Release(s, c), pipeline.value) else Release(s, c)
  }

  function Without(services: seq<Service>, uuid: string): (left: seq<Service>)
    requires IndexOf(services, uuid) < |services|
  {
    services[..IndexOf(services, uuid)] + services[IndexOf(services, uuid) + 1..]
  }

  function Take(s: State, step: Step): State
    requires Enabled(s, step)
  {
    match step
    case NewBoard => s.(runtimes := s.runtimes + [Runtime(None, [], [])])
    case CreateScope(home, uuid) => s.(scopes := s.scopes + [Scope(uuid, home, false, None, None, None)])
    case AddPlain(r, uuid) => WithServices(s, r, s.runtimes[r].services + [Plain(uuid)])
    case Attach(c) =>
      var scope := s.scopes[c];
      WithServices(s, scope.home, s.runtimes[scope.home].services + [Holder(scope.uuid, c)])
      .(scopes := s.scopes[c := scope.(attached := true)])
    case Begin(c) =>
      var t := Retire(s, c);
      State(t.runtimes + [Runtime(Some(c), [], [])], t.scopes[c := t.scopes[c].(building := Some(|t.runtimes|))])
    case Finish(c) =>
      var p := s.scopes[c].building;
      var t := s.(scopes := s.scopes[c := s.scopes[c].(pipeline := p, building := None, handle := p)]);
      if p.value < |s.runtimes| then WithTargets(t, p.value, Register(s.runtimes[p.value].targets, Carry(c))) else t
    case DestroyScope(c) =>
      var t := Retire(s, c);
      t.(scopes := t.scopes[c := t.scopes[c].(pipeline := None)])
    case RemoveService(r, uuid) => WithServices(s, r, Without(s.runtimes[r].services, uuid))
    case DestroyBoard(r) => Clear(s, r)
    case Listen(r, l) => WithTargets(s, r, Register(s.runtimes[r].targets, Listener(l)))
    case Unlisten(r, l) => WithTargets(s, r, Discard(s.runtimes[r].targets, Listener(l)))
  }

  function Run(steps: seq<Step>): State {
    if steps == [] then State([], [])
    else
      var s, step := Run(steps[..|steps| - 1]), steps[|steps| - 1];
      if Enabled(s, step) then Take(s, step) else s
  }

  // ── What every step keeps ─────────────────────────────────────────────────

  /** What a scope says of its pipelines. */
  ghost predicate ScopeRight(s: State, c: nat)
    requires c < |s.scopes|
  {
    var scope := s.scopes[c];
    && scope.home < |s.runtimes|
    && (scope.pipeline.Some? ==> PipelineRight(s, c, scope.pipeline.value))
    && (scope.building.Some? ==> PipelineRight(s, c, scope.building.value) && scope.building != scope.pipeline)
    && (scope.handle.Some? ==> scope.handle == scope.pipeline && scope.building.None?)
  }

  ghost predicate PipelineRight(s: State, c: nat, p: nat)
    requires c < |s.scopes|
  {
    s.scopes[c].home < p < |s.runtimes| && s.runtimes[p].owner == Some(c)
  }

  ghost predicate ServiceRight(s: State, r: nat, service: Service) {
    service.Holder? ==>
      && service.scope < |s.scopes| && s.scopes[service.scope].home == r && s.scopes[service.scope].attached
      && s.scopes[service.scope].uuid == service.uuid
  }

  /** A board has listeners, each once; a pipeline has its scope's registration,
      once, exactly while that is the one the scope can release. */
  ghost predicate TargetsRight(s: State, r: nat)
    requires r < |s.runtimes|
  {
    var runtime := s.runtimes[r];
    if runtime.owner.None? then
      && (forall i | 0 <= i < |runtime.targets| :: runtime.targets[i].Listener?)
      && NoneTwice(runtime.targets)
    else
      var c := runtime.owner.value;
      c < |s.scopes| && runtime.targets == (if s.scopes[c].handle == Some(r) then [Carry(c)] else [])
  }

  ghost predicate ServicesRight(s: State, r: nat)
    requires r < |s.runtimes|
  {
    var services := s.runtimes[r].services;
    && (forall i | 0 <= i < |services| :: ServiceRight(s, r, services[i]))
    && (forall i, j | 0 <= i < j < |services| :: services[i].uuid != services[j].uuid)
  }

  /** Nothing is left in a pipeline its scope is not registered with. */
  ghost predicate Emptied(s: State, c: nat)
    requires c < |s.scopes|
  {
    var p := s.scopes[c].pipeline;
    p.Some? && p.value < |s.runtimes| && s.scopes[c].handle.None? ==> s.runtimes[p.value].services == []
  }

  ghost predicate Wired(s: State) {
    && (forall c | 0 <= c < |s.scopes| :: ScopeRight(s, c))
    && (forall r | 0 <= r < |s.runtimes| :: TargetsRight(s, r))
    && (forall r | 0 <= r < |s.runtimes| :: ServicesRight(s, r))
  }

  ghost predicate Inv(s: State) { Wired(s) && forall c | 0 <= c < |s.scopes| :: Emptied(s, c) }

  /** Nothing but what is listed changed owners, homes, names or hosts. */
  ghost predicate SameShape(s: State, t: State) {
    && |t.runtimes| == |s.runtimes| && |t.scopes| == |s.scopes|
    && (forall r | 0 <= r < |s.runtimes| :: t.runtimes[r].owner == s.runtimes[r].owner)
    && (forall c | 0 <= c < |s.scopes| ::
          && t.scopes[c].home == s.scopes[c].home && t.scopes[c].uuid == s.scopes[c].uuid
          && t.scopes[c].attached == s.scopes[c].attached)
  }

  lemma ReleaseKeeps(s: State, c: nat)
    requires Wired(s) && c < |s.scopes|
    ensures var t := Release(s, c);
            && Wired(t) && SameShape(s, t) && t.scopes == s.scopes[c := s.scopes[c].(handle := None)]
            && (forall r | 0 <= r < |s.runtimes| :: t.runtimes[r].services == s.runtimes[r].services)
  {
    var t := Release(s, c);
    var handle := s.scopes[c].handle;
    assert ScopeRight(s, c);
    if handle.Some? {
      assert TargetsRight(s, handle.value);
      assert Discard([Carry(c)], Carry(c)) == [];
    }
    forall r | 0 <= r < |t.runtimes|
      ensures TargetsRight(t, r) && ServicesRight(t, r)
    {
      assert TargetsRight(s, r) && ServicesRight(s, r);
    }
    forall d | 0 <= d < |t.scopes|
      ensures ScopeRight(t, d)
    {
      assert ScopeRight(s, d);
    }
  }

  /** Clearing a pipeline nobody is registered with any more, or a board. */
  lemma ClearKeeps(s: State, p: nat)
    requires Wired(s) && p < |s.runtimes|
    requires s.runtimes[p].owner.Some? ==> s.runtimes[p].targets == []
    ensures Wired(Clear(s, p)) && SameShape(s, Clear(s, p))
  {
    var t := Clear(s, p);
    forall r | 0 <= r < |t.runtimes|
      ensures TargetsRight(t, r) && ServicesRight(t, r)
    {
      assert TargetsRight(s, r) && ServicesRight(s, r);
    }
    forall d | 0 <= d < |t.scopes|
      ensures ScopeRight(t, d)
    {
      assert ScopeRight(s, d);
    }
  }

  lemma RetireKeeps(s: State, c: nat)
    requires Inv(s) && c < |s.scopes|
    ensures var t := Retire(s, c);
            Inv(t) && SameShape(s, t) && t.scopes == s.scopes[c := s.scopes[c].(handle := None)]
  {
    ReleaseKeeps(s, c);
    var u, t, p := Release(s, c), Retire(s, c), s.scopes[c].pipeline;
    assert ScopeRight(s, c);
    if p.Some? {
      assert TargetsRight(u, p.value);
      ClearKeeps(u, p.value);
    }
    forall d | 0 <= d < |t.scopes|
      ensures Emptied(t, d)
    {
      assert Emptied(s, d) && ScopeRight(s, d);
    }
  }

  /** A state like this one but for one runtime's services and one scope's host. */
  lemma ServicesKeep(s: State, t: State, r: nat)
    requires Inv(s) && r < |s.runtimes| == |t.runtimes| && |t.scopes| == |s.scopes|
    requires t.runtimes == s.runtimes[r := s.runtimes[r].(services := t.runtimes[r].services)]
    requires forall c | 0 <= c < |s.scopes| ::
               t.scopes[c] == s.scopes[c].(attached := t.scopes[c].attached) && (s.scopes[c].attached ==> t.scopes[c].attached)
    requires ServicesRight(t, r)
    requires Open(s, r) || (s.runtimes[r].services == [] ==> t.runtimes[r].services == [])
    ensures Inv(t)
  {
    forall q | 0 <= q < |t.runtimes|
      ensures TargetsRight(t, q) && ServicesRight(t, q)
    {
      assert TargetsRight(s, q) && ServicesRight(s, q);
    }
    forall c | 0 <= c < |t.scopes|
      ensures ScopeRight(t, c) && Emptied(t, c)
    {
      assert ScopeRight(s, c) && Emptied(s, c);
      assert TargetsRight(s, r);
    }
  }

  lemma AddPlainInv(s: State, r: nat, uuid: string)
    requires Inv(s) && Enabled(s, AddPlain(r, uuid))
    ensures Inv(Take(s, AddPlain(r, uuid)))
  {
    assert ServicesRight(s, r);
    ServicesKeep(s, Take(s, AddPlain(r, uuid)), r);
  }

  lemma AttachInv(s: State, c: nat)
    requires Inv(s) && Enabled(s, Attach(c))
    ensures Inv(Take(s, Attach(c)))
  {
    var r := s.scopes[c].home;
    assert ServicesRight(s, r);
    ServicesKeep(s, Take(s, Attach(c)), r);
  }

  lemma RemoveServiceInv(s: State, r: nat, uuid: string)
    requires Inv(s) && Enabled(s, RemoveService(r, uuid))
    ensures Inv(Take(s, RemoveService(r, uuid)))
  {
    var services, i := s.runtimes[r].services, IndexOf(s.runtimes[r].services, uuid);
    var left := Without(services, uuid);
    assert ServicesRight(s, r);
    assert forall j | 0 <= j < |left| :: left[j] == services[if j < i then j else j + 1];
    ServicesKeep(s, Take(s, RemoveService(r, uuid)), r);
  }

  /** A state like this one but for a board's listeners. */
  lemma ListenersKeep(s: State, r: nat, targets: seq<Target>)
    requires Inv(s) && IsBoard(s, r) && TargetsRight(WithTargets(s, r, targets), r)
    ensures Inv(WithTargets(s, r, targets))
  {
    var t := WithTargets(s, r, targets);
    forall q | 0 <= q < |t.runtimes|
      ensures TargetsRight(t, q) && ServicesRight(t, q)
    {
      assert TargetsRight(s, q) && ServicesRight(s, q);
    }
    forall c | 0 <= c < |t.scopes|
      ensures ScopeRight(t, c) && Emptied(t, c)
    {
      assert ScopeRight(s, c) && Emptied(s, c);
    }
  }

  ghost predicate NoneTwice(targets: seq<Target>) {
    forall i, j | 0 <= i < j < |targets| :: targets[i] != targets[j]
  }

  lemma {:induction false} DiscardKeeps(targets: seq<Target>, target: Target)
    requires NoneTwice(targets)
    ensures NoneTwice(Discard(targets, target))
  {
    if targets != [] {
      var first, rest := targets[0], Discard(targets[1..], target);
      DiscardKeeps(targets[1..], target);
      assert first !in targets[1..];
      assert forall i | 0 <= i < |rest| :: rest[i] in rest;
      assert Discard(targets, target) == if first == target then rest else [first] + rest;
    }
  }

  lemma UnlistenInv(s: State, r: nat, l: nat)
    requires Inv(s) && IsBoard(s, r)
    ensures Inv(Take(s, Unlisten(r, l)))
  {
    assert TargetsRight(s, r);
    var left := Discard(s.runtimes[r].targets, Listener(l));
    DiscardKeeps(s.runtimes[r].targets, Listener(l));
    assert forall i | 0 <= i < |left| :: left[i] in left;
    ListenersKeep(s, r, left);
  }

  lemma ListenInv(s: State, r: nat, l: nat)
    requires Inv(s) && IsBoard(s, r)
    ensures Inv(Take(s, Listen(r, l)))
  {
    assert TargetsRight(s, r);
    ListenersKeep(s, r, Register(s.runtimes[r].targets, Listener(l)));
  }

  lemma DestroyBoardInv(s: State, r: nat)
    requires Inv(s) && IsBoard(s, r)
    ensures Inv(Take(s, DestroyBoard(r)))
  {
    ClearKeeps(s, r);
    var t := Clear(s, r);
    forall c | 0 <= c < |t.scopes|
      ensures Emptied(t, c)
    {
      assert Emptied(s, c);
    }
  }

  lemma DestroyScopeInv(s: State, c: nat)
    requires Inv(s) && c < |s.scopes|
    ensures Inv(Take(s, DestroyScope(c)))
  {
    RetireKeeps(s, c);
    var u, t := Retire(s, c), Take(s, DestroyScope(c));
    forall r | 0 <= r < |t.runtimes|
      ensures TargetsRight(t, r) && ServicesRight(t, r)
    {
      assert TargetsRight(u, r) && ServicesRight(u, r);
    }
    forall d | 0 <= d < |t.scopes|
      ensures ScopeRight(t, d) && Emptied(t, d)
    {
      assert ScopeRight(u, d) && Emptied(u, d);
    }
  }

  /** A new runtime, of a scope that has no registration or of nobody. */
  lemma NewRuntimeInv(s: State, owner: Option<nat>)
    requires Inv(s)
    requires owner.Some? ==> owner.value < |s.scopes| && s.scopes[owner.value].handle.None?
    ensures var runtimes := s.runtimes + [Runtime(owner, [], [])];
            Inv(State(runtimes, if owner.None? then s.scopes
                                else s.scopes[owner.value := s.scopes[owner.value].(building := Some(|s.runtimes|))]))
  {
    var t := State(s.runtimes + [Runtime(owner, [], [])], if owner.None? then s.scopes
                   else s.scopes[owner.value := s.scopes[owner.value].(building := Some(|s.runtimes|))]);
    forall d | 0 <= d < |t.scopes|
      ensures ScopeRight(t, d) && Emptied(t, d)
    {
      assert ScopeRight(s, d) && Emptied(s, d);
    }
    forall r | 0 <= r < |t.runtimes|
      ensures TargetsRight(t, r) && ServicesRight(t, r)
    {
      if r < |s.runtimes| {
        assert TargetsRight(s, r) && ServicesRight(s, r);
      }
    }
  }

  lemma CreateScopeInv(s: State, home: nat, uuid: string)
    requires Inv(s) && Enabled(s, CreateScope(home, uuid))
    ensures Inv(Take(s, CreateScope(home, uuid)))
  {
    var t := Take(s, CreateScope(home, uuid));
    forall d | 0 <= d < |t.scopes|
      ensures ScopeRight(t, d) && Emptied(t, d)
    {
      if d < |s.scopes| {
        assert ScopeRight(s, d) && Emptied(s, d);
      }
    }
    forall r | 0 <= r < |t.runtimes|
      ensures TargetsRight(t, r) && ServicesRight(t, r)
    {
      assert TargetsRight(s, r) && ServicesRight(s, r);
    }
  }

  lemma FinishInv(s: State, c: nat)
    requires Inv(s) && Enabled(s, Finish(c))
    ensures Inv(Take(s, Finish(c)))
  {
    var t, p := Take(s, Finish(c)), s.scopes[c].building.value;
    assert ScopeRight(s, c);
    assert TargetsRight(s, p);
    forall d | 0 <= d < |t.scopes|
      ensures ScopeRight(t, d) && Emptied(t, d)
    {
      assert ScopeRight(s, d) && Emptied(s, d);
    }
    forall r | 0 <= r < |t.runtimes|
      ensures TargetsRight(t, r) && ServicesRight(t, r)
    {
      assert TargetsRight(s, r) && ServicesRight(s, r);
    }
  }

  lemma StepInv(s: State, step: Step)
    requires Inv(s) && Enabled(s, step)
    ensures Inv(Take(s, step))
  {
    match step
    case NewBoard => NewRuntimeInv(s, None);
    case CreateScope(home, uuid) => CreateScopeInv(s, home, uuid);
    case AddPlain(r, uuid) => AddPlainInv(s, r, uuid);
    case Attach(c) => AttachInv(s, c);
    case Begin(c) =>
      RetireKeeps(s, c);
      NewRuntimeInv(Retire(s, c), Some(c));
    case Finish(c) => FinishInv(s, c);
    case DestroyScope(c) => DestroyScopeInv(s, c);
    case RemoveService(r, uuid) => RemoveServiceInv(s, r, uuid);
    case DestroyBoard(r) => DestroyBoardInv(s, r);
    case Listen(r, l) => ListenInv(s, r, l);
    case Unlisten(r, l) => UnlistenInv(s, r, l);
  }

  lemma {:induction false} RunInv(steps: seq<Step>)
    ensures Inv(Run(steps))
  {
    if steps != [] {
      var before := steps[..|steps| - 1];
      RunInv(before);
      if Enabled(Run(before), steps[|steps| - 1]) {
        StepInv(Run(before), steps[|steps| - 1]);
      }
    }
  }
}
