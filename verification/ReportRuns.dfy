/** Where reports arrive after any run of building and rebuilding, and that the
    address they arrive under is one to dial. */
module ReportRuns {
  import opened Strings
  import opened Addresses
  import opened Reports

  lemma InvIsNested(s: State)
    requires Inv(s)
    ensures WellNested(s)
  {
    forall r, i | 0 <= r < |s.runtimes| && 0 <= i < |s.runtimes[r].services|
      ensures ServiceRight(s, r, s.runtimes[r].services[i])
    {
      assert ServicesRight(s, r);
    }
    forall c | 0 <= c < |s.scopes| && s.scopes[c].pipeline.Some?
      ensures PipelineRight(s, c, s.scopes[c].pipeline.value)
    {
      assert ScopeRight(s, c);
    }
  }

  // ── Outward ───────────────────────────────────────────────────────────────

  /** A name as it is heard outside the pipelines of these owners. */
  function Outward(owners: seq<string>, id: string): string {
    if owners == [] then id
    else Outward(owners[..|owners| - 1], JoinAddress(owners[|owners| - 1], id))
  }

  /** A pipeline with something in it passes what is said there to the runtime
      its scope is in, once. */
  lemma CarriedOn(s: State, q: nat, uuid: string, id: string)
    requires Inv(s) && PipelineOf(s, q, uuid).Some?
    requires s.runtimes[PipelineOf(s, q, uuid).value].services != []
    ensures Deliver(s, PipelineOf(s, q, uuid).value, id) == Deliver(s, q, JoinAddress(uuid, id))
  {
    var p := PipelineOf(s, q, uuid).value;
    InvIsNested(s);
    OwnerOf(s, q, uuid);
    var i := IndexOf(s.runtimes[q].services, uuid);
    assert ServicesRight(s, q) && ServiceRight(s, q, s.runtimes[q].services[i]);
    var c := s.runtimes[q].services[i].scope;
    assert ScopeRight(s, c) && Emptied(s, c) && TargetsRight(s, p);
    assert s.runtimes[p].targets == [Carry(c)];
    assert [Carry(c)][1..] == [];
    assert Deliver(s, p, id) == Tell(s, p, Carry(c), id) + DeliverTo(s, p, [], id);
  }

  lemma {:induction false} CarriedOut(s: State, board: nat, owners: seq<string>, id: string)
    requires Inv(s) && Reach(s, board, owners).Some?
    requires owners != [] ==> s.runtimes[Reach(s, board, owners).value].services != []
    ensures Deliver(s, Reach(s, board, owners).value, id) == Deliver(s, board, Outward(owners, id))
    decreases |owners|
  {
    if owners != [] {
      var n := |owners| - 1;
      var q := Reach(s, board, owners[..n]).value;
      CarriedOn(s, q, owners[n], id);
      CarriedOut(s, board, owners[..n], JoinAddress(owners[n], id));
    }
  }

  lemma {:induction false} AddressLast(path: seq<string>)
    requires |path| > 1
    ensures var n := |path| - 1; Address(path) == Address(path[..n - 1] + [JoinAddress(path[n - 1], path[n])])
    decreases |path|
  {
    var n := |path| - 1;
    var merged := path[..n - 1] + [JoinAddress(path[n - 1], path[n])];
    if n == 1 {
      assert path[1..] == [path[1]];
    } else {
      AddressLast(path[1..]);
      assert path[1..][..n - 2] == path[..n - 1][1..];
      assert merged[1..] == path[1..][..n - 2] + [JoinAddress(path[n - 1], path[n])];
    }
  }

  lemma {:induction false} OutwardIsAddress(owners: seq<string>, id: string)
    ensures Outward(owners, id) == Address(owners + [id])
    decreases |owners|
  {
    var path := owners + [id];
    if owners != [] {
      var n := |owners|;
      OutwardIsAddress(owners[..n - 1], JoinAddress(owners[n - 1], id));
      AddressLast(path);
      assert path[..n - 1] == owners[..n - 1];
    }
  }

  /** What every listener of a runtime is told, in turn. */
  function ToEach(targets: seq<Target>, address: string): seq<Delivery> {
    if targets == [] then []
    else (if targets[0].Listener? then [Delivery(targets[0].id, address)] else []) + ToEach(targets[1..], address)
  }

  lemma {:induction false} BoardTellsEach(s: State, r: nat, targets: seq<Target>, id: string)
    requires forall i | 0 <= i < |targets| :: targets[i].Listener?
    ensures DeliverTo(s, r, targets, id) == ToEach(targets, id)
    decreases |targets|
  {
    if targets != [] {
      BoardTellsEach(s, r, targets[1..], id);
    }
  }

  lemma {:induction false} EachOnce(targets: seq<Target>, address: string, heard: Delivery)
    requires NoneTwice(targets)
    ensures multiset(ToEach(targets, address))[heard] ==
            if heard.address == address && Listener(heard.listener) in targets then 1 else 0
  {
    if targets != [] {
      var first, rest := targets[0], targets[1..];
      EachOnce(rest, address, heard);
      assert targets == [first] + rest;
      assert first !in rest;
      assert multiset(ToEach(targets, address)) ==
             multiset(if first.Listener? then [Delivery(first.id, address)] else []) + multiset(ToEach(rest, address));
    }
  }

  /** After any run, what a service reports reaches each listener of the board
      it is in exactly once, and nobody else, under the address of its path. */
  lemma ReportsArriveOnce(steps: seq<Step>, board: nat, path: seq<string>, heard: Delivery)
    requires IsBoard(Run(steps), board) && path != [] && Locate(Run(steps), board, path).Some?
    ensures var s := Run(steps);
            var place := Locate(s, board, path).value;
            multiset(Deliver(s, place.runtime, place.uuid))[heard] ==
            if heard.address == Address(path) && Listener(heard.listener) in s.runtimes[board].targets then 1 else 0
  {
    var s := Run(steps);
    var n := |path| - 1;
    RunInv(steps);
    CarriedOut(s, board, path[..n], path[n]);
    OutwardIsAddress(path[..n], path[n]);
    assert path[..n] + [path[n]] == path;
    assert TargetsRight(s, board);
    BoardTellsEach(s, board, s.runtimes[board].targets, Address(path));
    EachOnce(s.runtimes[board].targets, Address(path), heard);
  }

  /** The address a report arrives under finds the service that made it, and is
      one to enter its pipeline at. */
  lemma ReportsDialBack(steps: seq<Step>, board: nat, path: seq<string>)
    requires path != [] && Locate(Run(steps), board, path).Some?
    ensures var s := Run(steps);
            && (AllSegments(s) ==>
                  GetService(s, board, Address(path)) == EnterAt(s, board, Address(path)) == Locate(s, board, path))
            && (|path| > 1 ==>
                  (GetService(s, board, Address(path)) == Locate(s, board, path) <==>
                   AreSegments(path) && !Has(s, board, Address(path))))
            && (EnterAt(s, board, Address(path)) == Locate(s, board, path) <==> Enterable(s, board, path))
  {
    var s := Run(steps);
    RunInv(steps);
    InvIsNested(s);
    EnterAtFindsExactly(s, board, path);
    if |path| > 1 {
      GetServiceFindsExactly(s, board, path);
    }
    if AllSegments(s) {
      AddressesAreDialable(s, board, path);
    }
  }

  /** What a pipeline that was replaced or destroyed still says reaches nobody. */
  lemma ReplacedPipelineIsSilent(steps: seq<Step>, p: nat, id: string)
    requires p < |Run(steps).runtimes|
    ensures var s := Run(steps);
            var owner := s.runtimes[p].owner;
            owner.Some? && owner.value < |s.scopes| && s.scopes[owner.value].pipeline != Some(p)
            ==> Deliver(s, p, id) == []
  {
    var s := Run(steps);
    RunInv(steps);
    assert TargetsRight(s, p);
    if s.runtimes[p].owner.Some? {
      assert ScopeRight(s, s.runtimes[p].owner.value);
    }
  }
}
