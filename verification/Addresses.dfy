/** Scoped addresses as text, and the services they find: a runtime's services
    by their own names, and those in the pipelines services hold. */
module Addresses {
  import opened Strings

  const SEPARATOR := '.'

  // ── Addresses as text ─────────────────────────────────────────────────────

  function NonEmpty(parts: seq<string>): (r: seq<string>)
    ensures forall i | 0 <= i < |r| :: r[i] != ""
    ensures (forall i | 0 <= i < |parts| :: Free(parts[i], SEPARATOR)) ==> forall i | 0 <= i < |r| :: Free(r[i], SEPARATOR)
  {
    if parts == [] then [] else (if parts[0] == "" then [] else [parts[0]]) + NonEmpty(parts[1..])
  }

  function SplitAddress(address: string): (segments: seq<string>)
    ensures forall i | 0 <= i < |segments| :: IsSegment(segments[i])
  {
    NonEmpty(Split(address, SEPARATOR))
  }

  function JoinAddress(owner: string, id: string): string {
    if owner == "" then id else owner + [SEPARATOR] + id
  }

  predicate IsSegment(s: string) { s != "" && Free(s, SEPARATOR) }

  ghost predicate AreSegments(path: seq<string>) { forall i | 0 <= i < |path| :: IsSegment(path[i]) }

  /** What a path of names becomes on its way out: each owner's name before it. */
  function Address(path: seq<string>): string
    requires path != []
  {
    if |path| == 1 then path[0] else JoinAddress(path[0], Address(path[1..]))
  }

  lemma {:induction false} NonEmptyAll(parts: seq<string>)
    requires forall i | 0 <= i < |parts| :: parts[i] != ""
    ensures NonEmpty(parts) == parts
  {
    if parts != [] {
      NonEmptyAll(parts[1..]);
    }
  }

  lemma {:induction false} AddressIsJoined(path: seq<string>)
    requires path != [] && AreSegments(path)
    ensures Address(path) == Join(path, SEPARATOR)
  {
    if |path| > 1 {
      AddressIsJoined(path[1..]);
    }
  }

  /** An address of segments is read back as those segments. */
  lemma SplitUndoesAddress(path: seq<string>)
    requires path != [] && AreSegments(path)
    ensures SplitAddress(Address(path)) == path
  {
    AddressIsJoined(path);
    SplitJoin(path, SEPARATOR);
    NonEmptyAll(path);
  }

  // ── Runtimes and the scopes in them ───────────────────────────────────────

  /** A service: an ordinary one, or one that holds a pipeline of its own. */
  datatype Service = Plain(uuid: string) | Holder(uuid: string, scope: nat)

  datatype Target = Listener(id: nat) | Carry(scope: nat)

  /** A runtime, with the scope it is a pipeline of and where its reports go. */
  datatype Runtime = Runtime(owner: Option<nat>, services: seq<Service>, targets: seq<Target>)

  /** A service that holds a pipeline; `attached` once it was given its host,
      `building` the pipeline under construction, `handle` the runtime its
      registration can be released from. */
  datatype Scope = Scope(
    uuid: string, home: nat, attached: bool,
    pipeline: Option<nat>, building: Option<nat>, handle: Option<nat>)

  datatype State = State(runtimes: seq<Runtime>, scopes: seq<Scope>)

  datatype Place = Place(runtime: nat, uuid: string)

  function IndexOf(services: seq<Service>, uuid: string): (i: nat)
    ensures i <= |services|
    ensures i < |services| ==> services[i].uuid == uuid
    ensures forall j | 0 <= j < i :: services[j].uuid != uuid
  {
    if services == [] || services[0].uuid == uuid then 0 else 1 + IndexOf(services[1..], uuid)
  }

  predicate Has(s: State, r: nat, uuid: string) {
    r < |s.runtimes| && IndexOf(s.runtimes[r].services, uuid) < |s.runtimes[r].services|
  }

  /** The pipeline of a service of a runtime, if it is one that holds one. */
  function PipelineOf(s: State, r: nat, uuid: string): (p: Option<nat>)
    ensures p.Some? ==> r < p.value < |s.runtimes|
  {
    if !Has(s, r, uuid) then None
    else
      var service := s.runtimes[r].services[IndexOf(s.runtimes[r].services, uuid)];
      if service.Holder? && service.scope < |s.scopes| && s.scopes[service.scope].pipeline.Some?
         && r < s.scopes[service.scope].pipeline.value < |s.runtimes|
      then s.scopes[service.scope].pipeline
      else None
  }

  // ── Finding a service, and entering at one ────────────────────────────────

  /** Looks an address up from a runtime: as one name there, else segment by
      segment below the service its first segment is the name of. */
  function GetService(s: State, r: nat, address: string): (p: Option<Place>)
    ensures p.Some? ==> r <= p.value.runtime < |s.runtimes| && Has(s, p.value.runtime, p.value.uuid)
    decreases |s.runtimes| - r, 1
  {
    if Has(s, r, address) then Some(Place(r, address))
    else
      var segments := SplitAddress(address);
      if |segments| < 2 || !Has(s, r, segments[0]) then None
      else Descend(s, Place(r, segments[0]), segments[1..])
  }

  function Descend(s: State, at: Place, segments: seq<string>): (p: Option<Place>)
    requires Has(s, at.runtime, at.uuid)
    ensures p.Some? ==> at.runtime <= p.value.runtime < |s.runtimes| && Has(s, p.value.runtime, p.value.uuid)
    decreases |s.runtimes| - at.runtime, 0
  {
    if segments == [] then Some(at)
    else
      var inner := PipelineOf(s, at.runtime, at.uuid);
      var found := if inner.Some? then GetService(s, inner.value, segments[0]) else None;
      if found.None? then None else Descend(s, found.value, segments[1..])
  }

  /** Where `process_at` enters; None where it raises. */
  function EnterAt(s: State, r: nat, address: string): Option<Place>
    decreases |s.runtimes| - r
  {
    if Has(s, r, address) then Some(Place(r, address))
    else
      var segments := SplitAddress(address);
      var inner := if |segments| > 1 then PipelineOf(s, r, segments[0]) else None;
      if inner.None? then None else EnterAt(s, inner.value, Join(segments[1..], SEPARATOR))
  }

  // ── Paths ─────────────────────────────────────────────────────────────────

  /** The runtime the pipelines of these services lead to. */
  function Reach(s: State, r: nat, owners: seq<string>): (q: Option<nat>)
    ensures q.Some? && owners != [] ==> r < q.value < |s.runtimes|
  {
    if owners == [] then Some(r)
    else
      var q := Reach(s, r, owners[..|owners| - 1]);
      if q.None? then None else PipelineOf(s, q.value, owners[|owners| - 1])
  }

  /** A path of names from a runtime to one of the services in or below it. */
  function Locate(s: State, r: nat, path: seq<string>): (p: Option<Place>)
    requires path != []
  {
    var q := Reach(s, r, path[..|path| - 1]);
    if q.Some? && Has(s, q.value, path[|path| - 1]) then Some(Place(q.value, path[|path| - 1])) else None
  }

  /** A pipeline is one scope's, and the scope is where it says it is. */
  ghost predicate WellNested(s: State) {
    && (forall r, i | 0 <= r < |s.runtimes| && 0 <= i < |s.runtimes[r].services| ::
          var service := s.runtimes[r].services[i];
          service.Holder? ==>
            service.scope < |s.scopes| && s.scopes[service.scope].home == r && s.scopes[service.scope].uuid == service.uuid)
    && (forall c | 0 <= c < |s.scopes| && s.scopes[c].pipeline.Some? ::
          s.scopes[c].pipeline.value < |s.runtimes| && s.runtimes[s.scopes[c].pipeline.value].owner == Some(c))
  }

  lemma {:induction false} ReachFront(s: State, r: nat, owners: seq<string>)
    requires owners != []
    ensures Reach(s, r, owners) ==
            (if PipelineOf(s, r, owners[0]).None? then None else Reach(s, PipelineOf(s, r, owners[0]).value, owners[1..]))
  {
    var n := |owners| - 1;
    if n == 0 {
      assert owners[..0] == [] && owners[1..] == [];
    } else {
      ReachFront(s, r, owners[..n]);
      assert owners[..n][1..] == owners[1..][..n - 1];
      assert owners[1..][n - 1] == owners[n];
    }
  }

  lemma LocateFront(s: State, r: nat, path: seq<string>)
    requires |path| > 1
    ensures Locate(s, r, path) ==
            (if PipelineOf(s, r, path[0]).None? then None else Locate(s, PipelineOf(s, r, path[0]).value, path[1..]))
  {
    var n := |path| - 1;
    ReachFront(s, r, path[..n]);
    assert path[..n][1..] == path[1..][..n - 1];
    assert path[..n][0] == path[0] && path[1..][n - 1] == path[n];
  }

  /** A pipeline is that of one service of one runtime. */
  lemma OwnedOnce(s: State, p: nat, u: string, q: nat, v: string)
    requires WellNested(s) && PipelineOf(s, p, u).Some? && PipelineOf(s, p, u) == PipelineOf(s, q, v)
    ensures p == q && u == v
  {
    OwnerOf(s, p, u);
    OwnerOf(s, q, v);
  }

  /** Two ways to a pipeline are the same way. */
  lemma {:induction false} ReachOnce(s: State, r: nat, a: seq<string>, b: seq<string>)
    requires WellNested(s) && Reach(s, r, a).Some? && Reach(s, r, a) == Reach(s, r, b)
    ensures a == b
    decreases |a|
  {
    if a != [] && b != [] {
      var m, n := |a| - 1, |b| - 1;
      var p, q := Reach(s, r, a[..m]).value, Reach(s, r, b[..n]).value;
      OwnedOnce(s, p, a[m], q, b[n]);
      ReachOnce(s, r, a[..m], b[..n]);
      assert a == a[..m] + [a[m]] && b == b[..n] + [b[n]];
    }
  }

  lemma OwnerOf(s: State, r: nat, uuid: string)
    requires WellNested(s) && PipelineOf(s, r, uuid).Some?
    ensures var owner := s.runtimes[PipelineOf(s, r, uuid).value].owner;
            owner.Some? && owner.value < |s.scopes| && s.scopes[owner.value].home == r && s.scopes[owner.value].uuid == uuid
  {
  }

  lemma LocateOnce(s: State, r: nat, a: seq<string>, b: seq<string>)
    requires WellNested(s) && a != [] && b != [] && Locate(s, r, a).Some? && Locate(s, r, a) == Locate(s, r, b)
    ensures a == b
  {
    var m, n := |a| - 1, |b| - 1;
    ReachOnce(s, r, a[..m], b[..n]);
    assert a == a[..m] + [a[m]] && b == b[..n] + [b[n]];
  }

  // ── get_service ───────────────────────────────────────────────────────────

  /** A name without the separator is looked up flat, and only so. */
  lemma SegmentIsFlat(s: State, r: nat, name: string)
    requires IsSegment(name)
    ensures GetService(s, r, name) == if Has(s, r, name) then Some(Place(r, name)) else None
  {
    SplitUndoesAddress([name]);
  }

  lemma {:induction false} DescendIsLocate(s: State, r: nat, uuid: string, segments: seq<string>)
    requires Has(s, r, uuid) && AreSegments(segments)
    ensures Descend(s, Place(r, uuid), segments) == Locate(s, r, [uuid] + segments)
    decreases |segments|
  {
    var path := [uuid] + segments;
    if segments == [] {
      assert path == [uuid] && path[..0] == [];
    } else {
      LocateFront(s, r, path);
      assert path[1..] == segments;
      var inner := PipelineOf(s, r, uuid);
      if inner.Some? {
        var p := inner.value;
        SegmentIsFlat(s, p, segments[0]);
        if Has(s, p, segments[0]) {
          DescendIsLocate(s, p, segments[0], segments[1..]);
          assert [segments[0]] + segments[1..] == segments;
        } else {
          MissingHead(s, p, segments);
        }
      }
    }
  }

  lemma MissingHead(s: State, r: nat, path: seq<string>)
    requires path != [] && !Has(s, r, path[0])
    ensures Locate(s, r, path) == None
  {
    if |path| > 1 {
      LocateFront(s, r, path);
    }
  }

  /** The address a nested service's reports carry finds that very service when
      every name on its way is a segment and no service of the outer runtime has
      the whole address for a name, and only then. */
  lemma GetServiceFindsExactly(s: State, r: nat, path: seq<string>)
    requires WellNested(s) && |path| > 1 && Locate(s, r, path).Some?
    ensures GetService(s, r, Address(path)) == Locate(s, r, path) <==> AreSegments(path) && !Has(s, r, Address(path))
  {
    var address := Address(path);
    var segments := SplitAddress(address);
    assert Locate(s, r, path).value.runtime > r;
    if !Has(s, r, address) {
      if |segments| >= 2 && Has(s, r, segments[0]) {
        DescendIsLocate(s, r, segments[0], segments[1..]);
        assert [segments[0]] + segments[1..] == segments;
        if Locate(s, r, segments) == Locate(s, r, path) {
          LocateOnce(s, r, segments, path);
        }
      }
      if AreSegments(path) {
        SplitUndoesAddress(path);
        if !Has(s, r, path[0]) {
          MissingHead(s, r, path);
        }
      }
    }
  }

  /** A service of the runtime itself is found by its name, whatever that is. */
  lemma GetServiceFindsFlat(s: State, r: nat, uuid: string)
    requires Has(s, r, uuid)
    ensures GetService(s, r, Address([uuid])) == Locate(s, r, [uuid]) == Some(Place(r, uuid))
  {
    assert [uuid][..0] == [];
  }

  // ── process_at ────────────────────────────────────────────────────────────

  /** An address without its empty segments. */
  function Normal(address: string): string { Join(SplitAddress(address), SEPARATOR) }

  /** The names `process_at` passes on the way to where it enters. */
  function Route(s: State, r: nat, address: string): (path: seq<string>)
    requires EnterAt(s, r, address).Some?
    ensures path != []
    decreases |s.runtimes| - r
  {
    if Has(s, r, address) then [address]
    else
      var segments := SplitAddress(address);
      [segments[0]] + Route(s, PipelineOf(s, r, segments[0]).value, Join(segments[1..], SEPARATOR))
  }

  lemma NormalIsNormal(segments: seq<string>)
    requires AreSegments(segments) && segments != []
    ensures SplitAddress(Join(segments, SEPARATOR)) == segments
  {
    AddressIsJoined(segments);
    SplitUndoesAddress(segments);
  }

  lemma {:induction false} RouteLeads(s: State, r: nat, address: string)
    requires EnterAt(s, r, address).Some?
    ensures var path := Route(s, r, address);
            && Locate(s, r, path) == EnterAt(s, r, address)
            && Address(path) == (if Has(s, r, address) then address else Normal(address))
            && (|path| > 1 ==> path[0] == SplitAddress(address)[0])
            && (|path| == 1 <==> Has(s, r, address))
    decreases |s.runtimes| - r
  {
    var path := Route(s, r, address);
    if Has(s, r, address) {
      assert path[..0] == [];
    } else {
      var segments := SplitAddress(address);
      var p, inner := PipelineOf(s, r, segments[0]).value, Join(segments[1..], SEPARATOR);
      RouteLeads(s, p, inner);
      NormalIsNormal(segments[1..]);
      LocateFront(s, r, path);
      assert path[1..] == Route(s, p, inner);
    }
  }

  /** Where the address of a path is read as that path: every owner's name is a
      segment, no part of what remains is empty, and no service on the way has
      for a name all that remains. */
  predicate Enterable(s: State, r: nat, path: seq<string>)
    requires path != []
    decreases |path|
  {
    |path| == 1 ||
    (&& IsSegment(path[0]) && Normal(Address(path)) == Address(path) && !Has(s, r, Address(path))
     && PipelineOf(s, r, path[0]).Some? && Enterable(s, PipelineOf(s, r, path[0]).value, path[1..]))
  }

  lemma FirstSegment(path: seq<string>)
    requires |path| > 1 && IsSegment(path[0])
    ensures SplitAddress(Address(path)) == [path[0]] + SplitAddress(Address(path[1..]))
  {
    SplitFirst(path[0], Address(path[1..]), SEPARATOR);
    assert ([path[0]] + Split(Address(path[1..]), SEPARATOR))[1..] == Split(Address(path[1..]), SEPARATOR);
  }

  lemma RestIsNormal(path: seq<string>)
    requires |path| > 1 && IsSegment(path[0]) && Normal(Address(path)) == Address(path)
    ensures |SplitAddress(Address(path))| > 1 && SplitAddress(Address(path))[0] == path[0]
    ensures Join(SplitAddress(Address(path))[1..], SEPARATOR) == Address(path[1..])
  {
    FirstSegment(path);
    var segments, head := SplitAddress(Address(path)), path[0] + [SEPARATOR];
    assert Address(path) == head + Address(path[1..]);
    assert segments[1..] == SplitAddress(Address(path[1..]));
    assert (head + Join(segments[1..], SEPARATOR))[|head|..] == Join(segments[1..], SEPARATOR);
    assert (head + Address(path[1..]))[|head|..] == Address(path[1..]);
  }

  /** A pipeline is entered at the very service the address is of exactly when
      the address is read as its path. */
  lemma {:induction false} EnterAtFindsExactly(s: State, r: nat, path: seq<string>)
    requires WellNested(s) && path != [] && Locate(s, r, path).Some?
    ensures EnterAt(s, r, Address(path)) == Locate(s, r, path) <==> Enterable(s, r, path)
    decreases |path|
  {
    if |path| == 1 {
      assert path[..0] == [];
    } else {
      LocateFront(s, r, path);
      var address := Address(path);
      var p := PipelineOf(s, r, path[0]).value;
      EnterAtFindsExactly(s, p, path[1..]);
      if Enterable(s, r, path) {
        RestIsNormal(path);
      }
      if EnterAt(s, r, address) == Locate(s, r, path) {
        RouteLeads(s, r, address);
        LocateOnce(s, r, Route(s, r, address), path);
        RestIsNormal(path);
      }
    }
  }

  // ── Names that are segments ───────────────────────────────────────────────

  ghost predicate AllSegments(s: State) {
    forall r, i | 0 <= r < |s.runtimes| && 0 <= i < |s.runtimes[r].services| :: IsSegment(s.runtimes[r].services[i].uuid)
  }

  lemma ScopedHasSeparator(path: seq<string>)
    requires |path| > 1 && path[0] != ""
    ensures !Free(Address(path), SEPARATOR)
  {
    assert Address(path)[|path[0]|] == SEPARATOR;
  }

  lemma {:induction false} LocatedAreSegments(s: State, r: nat, path: seq<string>)
    requires AllSegments(s) && path != [] && Locate(s, r, path).Some?
    ensures AreSegments(path) && Enterable(s, r, path)
    decreases |path|
  {
    if |path| == 1 {
      assert path[..0] == [];
    } else {
      LocateFront(s, r, path);
      assert Has(s, r, path[0]);
      LocatedAreSegments(s, PipelineOf(s, r, path[0]).value, path[1..]);
      SplitUndoesAddress(path);
      AddressIsJoined(path);
      ScopedHasSeparator(path);
    }
  }

  /** With names that are segments everywhere, an address finds its service and
      enters at it, however deep. */
  lemma AddressesAreDialable(s: State, r: nat, path: seq<string>)
    requires WellNested(s) && AllSegments(s) && path != [] && Locate(s, r, path).Some?
    ensures GetService(s, r, Address(path)) == Locate(s, r, path)
    ensures EnterAt(s, r, Address(path)) == Locate(s, r, path)
  {
    LocatedAreSegments(s, r, path);
    EnterAtFindsExactly(s, r, path);
    if |path| == 1 {
      assert path == [path[0]] && path[..0] == [];
      GetServiceFindsFlat(s, r, path[0]);
    } else {
      ScopedHasSeparator(path);
      GetServiceFindsExactly(s, r, path);
    }
  }

  /** A name that is not a segment, inside scopes, is never found by its address
      though it can be entered by it. */
  lemma DottedNameIsEnteredNotFound(s: State, r: nat, path: seq<string>)
    requires WellNested(s) && |path| > 1 && Locate(s, r, path).Some?
    requires Enterable(s, r, path) && !IsSegment(path[|path| - 1])
    ensures EnterAt(s, r, Address(path)) == Locate(s, r, path) && GetService(s, r, Address(path)) != Locate(s, r, path)
  {
    EnterAtFindsExactly(s, r, path);
    GetServiceFindsExactly(s, r, path);
  }

  const DOTTED := State([Runtime(None, [Holder("read", 0)], []), Runtime(Some(0), [Plain("a.b")], [Carry(0)])],
                        [Scope("read", 0, true, Some(1), None, Some(1))])

  lemma DottedIsLocated()
    ensures Locate(DOTTED, 0, ["read", "a.b"]) == Some(Place(1, "a.b")) && WellNested(DOTTED)
  {
    LocateFront(DOTTED, 0, ["read", "a.b"]);
    assert ["read", "a.b"][1..] == ["a.b"] && ["a.b"][..0] == [];
  }

  lemma ThreeSegments(a: string, b: string, c: string)
    requires IsSegment(a) && IsSegment(b) && IsSegment(c)
    ensures var dotted := JoinAddress(b, c);
            Address([a, dotted]) == JoinAddress(a, dotted) && Normal(JoinAddress(a, dotted)) == JoinAddress(a, dotted)
  {
    var path := [a, b, c];
    assert path[1..] == [b, c] && path[1..][1..] == [c];
    assert [a, JoinAddress(b, c)][1..] == [JoinAddress(b, c)];
    SplitUndoesAddress(path);
    AddressIsJoined(path);
    assert Address(path) == JoinAddress(a, JoinAddress(b, c)) by {
      assert Address(path[1..]) == JoinAddress(b, Address(path[1..][1..]));
    }
  }

  /** Such a name: one with a dot in it, inside a scope. */
  lemma ADottedName()
    ensures var address := JoinAddress("read", "a.b");
            EnterAt(DOTTED, 0, address) == Some(Place(1, "a.b")) && GetService(DOTTED, 0, address) != Some(Place(1, "a.b"))
  {
    var path := ["read", "a.b"];
    DottedIsLocated();
    assert JoinAddress("a", "b") == "a.b";
    ThreeSegments("read", "a", "b");
    assert path[1..] == ["a.b"] && path[0] == "read" && path[1] == "a.b";
    assert path[1][1] == SEPARATOR && Address(path)[4] == SEPARATOR;
    assert Enterable(DOTTED, 1, path[1..]);
    DottedNameIsEnteredNotFound(DOTTED, 0, path);
  }
}
