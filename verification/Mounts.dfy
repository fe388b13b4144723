/** Public endpoints: the claims to each address, kept address by address, and
    the one log of registrations and releases they come from. */
module Mounts {
  import opened Strings

  /** A claim; `id` stands for the identity of the record. */
  datatype Claim = Claim(id: nat, owner: string, space: string, runtimeId: string, serviceUuid: string)

  /** A deployed board's runtimes live in a space of the board's own. */
  predicate IsDeployed(c: Claim) { c.space != c.owner }

  // ── The log ───────────────────────────────────────────────────────────────

  datatype Event =
    | Registered(address: string, claim: Claim)
    | Released(address: string, id: nat)
    | RuntimeReleased(space: string, runtimeId: string)
    | OwnerReleased(owner: string)

  datatype Mounted = Mounted(address: string, claim: Claim)

  /** Whether a release is about this claim. */
  predicate Drops(e: Event, m: Mounted) {
    match e
    case Registered(_, _) => false
    case Released(address, id) => m.address == address && m.claim.id == id
    case RuntimeReleased(space, runtimeId) => m.claim.space == space && m.claim.runtimeId == runtimeId
    case OwnerReleased(owner) => m.claim.space == owner
  }

  function Kept(live: seq<Mounted>, e: Event): (kept: seq<Mounted>)
    ensures forall m :: m in kept <==> m in live && !Drops(e, m)
  {
    if live == [] then []
    else (if Drops(e, live[0]) then [] else [live[0]]) + Kept(live[1..], e)
  }

  /** The claims registered and not released since, in the order of registration. */
  function Live(events: seq<Event>): seq<Mounted> {
    if events == [] then []
    else After(Live(events[..|events| - 1]), events[|events| - 1])
  }

  function After(live: seq<Mounted>, e: Event): seq<Mounted> {
    if e.Registered? then live + [Mounted(e.address, e.claim)] else Kept(live, e)
  }

  function At(live: seq<Mounted>, address: string): (claims: seq<Claim>)
    ensures forall c :: c in claims <==> Mounted(address, c) in live
  {
    if live == [] then []
    else (if live[0].address == address then [live[0].claim] else []) + At(live[1..], address)
  }

  /** The event does not take the claim away: it is no release of that claim, of
      its runtime in its space, or of its space. */
  ghost predicate Spares(e: Event, m: Mounted) {
    && (e.Released? ==> e.address != m.address || e.id != m.claim.id)
    && (e.RuntimeReleased? ==> e.space != m.claim.space || e.runtimeId != m.claim.runtimeId)
    && (e.OwnerReleased? ==> e.owner != m.claim.space)
  }

  ghost predicate RegisteredAt(events: seq<Event>, i: nat, m: Mounted) {
    && i < |events| && events[i] == Registered(m.address, m.claim)
    && forall j | i < j < |events| :: Spares(events[j], m)
  }

  /** A claim is live exactly if it was registered and every event since spares it. */
  lemma {:induction false} LiveExactly(events: seq<Event>, m: Mounted)
    ensures m in Live(events) <==> exists i: nat :: RegisteredAt(events, i, m)
  {
    if events != [] {
      var n := |events| - 1;
      var e := events[n];
      LiveExactly(events[..n], m);
      if m in Live(events[..n]) && !Drops(e, m) {
        var i: nat :| RegisteredAt(events[..n], i, m);
        assert events[i] == events[..n][i];
        assert forall j | i < j < n :: events[j] == events[..n][j];
        assert RegisteredAt(events, i, m);
      }
      if e == Registered(m.address, m.claim) {
        assert RegisteredAt(events, n, m);
      }
      if i: nat :| RegisteredAt(events, i, m) && i < n {
        assert forall j | i <= j < n :: events[j] == events[..n][j];
        assert RegisteredAt(events[..n], i, m);
      }
    }
  }

  // ── Who answers ───────────────────────────────────────────────────────────

  function NewestDeployed(claims: seq<Claim>): Option<Claim> {
    if claims == [] then None
    else if IsDeployed(claims[|claims| - 1]) then Some(claims[|claims| - 1])
    else NewestDeployed(claims[..|claims| - 1])
  }

  /** Of a list in order of registration: the last claim of a board, or the last
      of all where no board claims. */
  function Answering(claims: seq<Claim>): Option<Claim> {
    if NewestDeployed(claims).Some? then NewestDeployed(claims)
    else if claims == [] then None else Some(claims[|claims| - 1])
  }

  lemma {:induction false} NewestDeployedIs(claims: seq<Claim>)
    ensures NewestDeployed(claims).None? ==> forall c | c in claims :: !IsDeployed(c)
    ensures NewestDeployed(claims).Some? ==>
              exists i | 0 <= i < |claims| ::
                && NewestDeployed(claims) == Some(claims[i]) && IsDeployed(claims[i])
                && forall j | i < j < |claims| :: !IsDeployed(claims[j])
  {
    if claims != [] {
      var n := |claims| - 1;
      NewestDeployedIs(claims[..n]);
      if IsDeployed(claims[n]) {
        assert NewestDeployed(claims) == Some(claims[n]);
      } else if NewestDeployed(claims).Some? {
        var i :| 0 <= i < n && NewestDeployed(claims[..n]) == Some(claims[..n][i]) && IsDeployed(claims[..n][i])
                 && forall j | i < j < n :: !IsDeployed(claims[..n][j]);
        assert claims[i] == claims[..n][i];
        assert forall j | i < j < |claims| :: j < n ==> claims[j] == claims[..n][j];
      }
    }
  }

  /** One answers wherever anyone claims; it is a board's, in a space not its
      owner's, if any claim is, and no claim of its kind is newer. */
  lemma AnsweringIs(claims: seq<Claim>)
    ensures Answering(claims).None? <==> claims == []
    ensures claims != [] ==>
              exists i | 0 <= i < |claims| ::
                && Answering(claims) == Some(claims[i])
                && ((exists c | c in claims :: c.space != c.owner) ==> claims[i].space != claims[i].owner)
                && forall j | i < j < |claims| :: claims[i].space != claims[i].owner && claims[j].space == claims[j].owner
  {
    NewestDeployedIs(claims);
    if claims != [] && NewestDeployed(claims).None? {
      assert Answering(claims) == Some(claims[|claims| - 1]);
    }
  }

  // ── What a release changes ────────────────────────────────────────────────

  function Without(claims: seq<Claim>, e: Event, address: string): seq<Claim> {
    if claims == [] then []
    else (if Drops(e, Mounted(address, claims[0])) then [] else [claims[0]]) + Without(claims[1..], e, address)
  }

  lemma AtCons(m: Mounted, live: seq<Mounted>, address: string)
    ensures At([m] + live, address) == (if m.address == address then [m.claim] else []) + At(live, address)
  {
    assert ([m] + live)[1..] == live;
  }

  lemma WithoutCons(c: Claim, claims: seq<Claim>, e: Event, address: string)
    ensures Without([c] + claims, e, address) ==
            (if Drops(e, Mounted(address, c)) then [] else [c]) + Without(claims, e, address)
  {
    assert ([c] + claims)[1..] == claims;
  }

  /** Filtering the log filters each address's claims. */
  lemma {:induction false} AtKept(live: seq<Mounted>, e: Event, address: string)
    ensures At(Kept(live, e), address) == Without(At(live, address), e, address)
  {
    if live != [] {
      AtKept(live[1..], e, address);
      AtKeptOne(live[0], live[1..], e, address);
      assert live == [live[0]] + live[1..];
    }
  }

  lemma AtKeptOne(m: Mounted, rest: seq<Mounted>, e: Event, address: string)
    requires At(Kept(rest, e), address) == Without(At(rest, address), e, address)
    ensures At(Kept([m] + rest, e), address) == Without(At([m] + rest, address), e, address)
  {
    assert ([m] + rest)[1..] == rest;
    AtCons(m, rest, address);
    if Drops(e, m) {
      assert Kept([m] + rest, e) == Kept(rest, e);
    } else {
      assert Kept([m] + rest, e) == [m] + Kept(rest, e);
      AtCons(m, Kept(rest, e), address);
    }
    if m.address == address {
      WithoutCons(m.claim, At(rest, address), e, address);
    } else {
      assert At([m] + rest, address) == At(rest, address);
    }
  }

  lemma {:induction false} AtAppend(live: seq<Mounted>, m: Mounted, address: string)
    ensures At(live + [m], address) == At(live, address) + (if m.address == address then [m.claim] else [])
  {
    if live == [] {
      assert live + [m] == [m] && [m][1..] == [];
    } else {
      assert (live + [m])[1..] == live[1..] + [m];
      AtAppend(live[1..], m, address);
    }
  }

  lemma {:induction false} KeptTwice(live: seq<Mounted>, e: Event)
    ensures Kept(Kept(live, e), e) == Kept(live, e)
  {
    if live != [] {
      KeptTwice(live[1..], e);
      if Drops(e, live[0]) {
        assert Kept(live, e) == Kept(live[1..], e);
      } else {
        assert Kept(live, e)[1..] == Kept(live[1..], e);
      }
    }
  }

  /** Releasing twice is releasing once, however much is registered or released
      of other claims before. */
  lemma ReleasingTwiceIsOnce(events: seq<Event>, e: Event)
    requires !e.Registered?
    ensures Live(events + [e, e]) == Live(events + [e])
  {
    var once, twice := events + [e], events + [e, e];
    assert twice[..|twice| - 1] == once && once[..|once| - 1] == events;
    KeptTwice(Live(events), e);
  }

  lemma {:induction false} WithoutLast(claims: seq<Claim>, e: Event, address: string)
    requires claims != []
    ensures var n := |claims| - 1;
            Without(claims, e, address) ==
            Without(claims[..n], e, address) + (if Drops(e, Mounted(address, claims[n])) then [] else [claims[n]])
  {
    var n := |claims| - 1;
    if n > 0 {
      WithoutLast(claims[1..], e, address);
      assert claims[1..][..n - 1] == claims[..n][1..];
    } else {
      assert claims[1..] == [] && claims[..0] == [];
    }
  }

  lemma {:induction false} NewestDeployedStays(claims: seq<Claim>, e: Event, address: string)
    requires NewestDeployed(claims).Some? ==> !Drops(e, Mounted(address, NewestDeployed(claims).value))
    ensures NewestDeployed(Without(claims, e, address)) == NewestDeployed(claims)
  {
    if claims != [] {
      var n := |claims| - 1;
      WithoutLast(claims, e, address);
      var rest := Without(claims[..n], e, address);
      if IsDeployed(claims[n]) {
        assert Without(claims, e, address) == rest + [claims[n]];
      } else {
        NewestDeployedStays(claims[..n], e, address);
        assert rest + [] == rest && (rest + [claims[n]])[..|rest|] == rest;
      }
    }
  }

  lemma AnsweringStays(claims: seq<Claim>, e: Event, address: string)
    requires Answering(claims).Some? ==> !Drops(e, Mounted(address, Answering(claims).value))
    ensures Answering(Without(claims, e, address)) == Answering(claims)
  {
    if NewestDeployed(claims).Some? {
      NewestDeployedStays(claims, e, address);
    } else {
      NewestDeployedStays(claims, e, address);
      if claims != [] {
        WithoutLast(claims, e, address);
      }
    }
  }

  /** A release changes who answers at an address exactly if it is about the
      claim that answers there. So one that is not answering, anywhere, changes
      nobody's answer. */
  lemma ReleaseChangesAnswerExactly(events: seq<Event>, e: Event, address: string)
    requires !e.Registered?
    ensures var claims := At(Live(events), address);
            Answering(At(Live(events + [e]), address)) != Answering(claims)
            <==> Answering(claims).Some? && Drops(e, Mounted(address, Answering(claims).value))
  {
    var claims, after := At(Live(events), address), At(Live(events + [e]), address);
    assert (events + [e])[..|events|] == events;
    AtKept(Live(events), e, address);
    if Answering(claims).Some? && Drops(e, Mounted(address, Answering(claims).value)) {
      AnsweringIs(after);
      if Answering(after).Some? {
        assert Mounted(address, Answering(after).value) in Kept(Live(events), e);
      }
    } else {
      AnsweringStays(claims, e, address);
    }
  }

  lemma RegisteringAppends(events: seq<Event>, address: string, claim: Claim, at: string)
    ensures Live(events + [Registered(address, claim)]) == Live(events) + [Mounted(address, claim)]
    ensures At(Live(events + [Registered(address, claim)]), at) ==
            At(Live(events), at) + (if at == address then [claim] else [])
  {
    assert (events + [Registered(address, claim)])[..|events|] == events;
    AtAppend(Live(events), Mounted(address, claim), at);
  }

  // ── The registry ──────────────────────────────────────────────────────────

  datatype Handle = Handle(url: string, address: string, id: nat)

  function ClaimsIn(mounts: map<string, seq<Claim>>, address: string): seq<Claim> {
    if address in mounts then mounts[address] else []
  }

  /** Address by address, what is held is what the one log says is live, and no
      address is held with nobody claiming it. */
  ghost predicate Agrees(mounts: map<string, seq<Claim>>, events: seq<Event>, claimsMade: nat) {
    && (forall address :: ClaimsIn(mounts, address) == At(Live(events), address))
    && (forall address | address in mounts :: mounts[address] != [])
    && (forall m | m in Live(events) :: m.claim.id < claimsMade)
  }

  lemma ClaimsAfter(mounts: map<string, seq<Claim>>, events: seq<Event>, address: string, claim: Claim, at: string)
    requires ClaimsIn(mounts, at) == At(Live(events), at)
    ensures ClaimsIn(mounts[address := ClaimsIn(mounts, address) + [claim]], at) == At(Live(events + [Registered(address, claim)]), at)
  {
    RegisteringAppends(events, address, claim, at);
    assert At(Live(events), at) + [] == At(Live(events), at);
  }

  lemma IdsAfter(events: seq<Event>, claimsMade: nat, address: string, claim: Claim)
    requires forall m | m in Live(events) :: m.claim.id < claimsMade
    requires claim.id == claimsMade
    ensures forall m | m in Live(events + [Registered(address, claim)]) :: m.claim.id < claimsMade + 1
  {
    RegisteringAppends(events, address, claim, address);
  }

  lemma RegisteringAgrees(mounts: map<string, seq<Claim>>, events: seq<Event>, claimsMade: nat, address: string, claim: Claim)
    requires Agrees(mounts, events, claimsMade) && claim.id == claimsMade
    ensures Agrees(mounts[address := ClaimsIn(mounts, address) + [claim]], events + [Registered(address, claim)], claimsMade + 1)
  {
    forall at
      ensures ClaimsIn(mounts[address := ClaimsIn(mounts, address) + [claim]], at) == At(Live(events + [Registered(address, claim)]), at)
    {
      ClaimsAfter(mounts, events, address, claim, at);
    }
    IdsAfter(events, claimsMade, address, claim);
  }

  class MountRegistry {
    const deriveId: (string, string, string, string) -> string
    const publicUrlFor: string -> Option<string>
    var mounts: map<string, seq<Claim>>
    var claimsMade: nat
    ghost var events: seq<Event>

    constructor (deriveId: (string, string, string, string) -> string, publicUrlFor: string -> Option<string>)
      ensures Valid() && events == []
    {
      this.deriveId, this.publicUrlFor := deriveId, publicUrlFor;
      mounts, claimsMade, events := map[], 0, [];
    }

    function ClaimsAt(address: string): seq<Claim>
      reads this
    {
      ClaimsIn(mounts, address)
    }

    ghost predicate Valid()
      reads this
    {
      Agrees(mounts, events, claimsMade)
    }

    /** Nobody is given an address before the server listens. */
    method Register(owner: string, runtimeId: string, serviceUuid: string,
                    boardName: string, mountName: Option<string>, space: Option<string>)
      returns (handle: Option<Handle>)
      requires Valid()
      modifies this
      ensures Valid()
      ensures var name := if mountName.Some? && mountName.value != "" then mountName.value else serviceUuid;
              var address := deriveId(owner, boardName, runtimeId, name);
              var url := publicUrlFor(address);
              if url.None? || url.value == "" then handle == None && events == old(events)
              else
                var claim := Claim(old(claimsMade), owner, if space.Some? then space.value else owner, runtimeId, serviceUuid);
                && handle == Some(Handle(url.value, address, claim.id))
                && events == old(events) + [Registered(address, claim)]
    {
      var name := if mountName.Some? && mountName.value != "" then mountName.value else serviceUuid;
      var address := deriveId(owner, boardName, runtimeId, name);
      var url := publicUrlFor(address);
      if url.None? || url.value == "" {
        return None;
      }
      var claim := Claim(claimsMade, owner, if space.Some? then space.value else owner, runtimeId, serviceUuid);
      RegisteringAgrees(mounts, events, claimsMade, address, claim);
      mounts := mounts[address := ClaimsAt(address) + [claim]];
      claimsMade := claimsMade + 1;
      events := events + [Registered(address, claim)];
      handle := Some(Handle(url.value, address, claim.id));
    }

    method AnsweringAt(address: string) returns (claim: Option<Claim>)
      requires Valid()
      ensures claim == Answering(At(Live(events), address))
    {
      claim := Answering(ClaimsAt(address));
    }

    /** Takes the claims a release is about out of one address's. */
    method Drop(address: string, e: Event)
      modifies `mounts
      ensures forall a :: ClaimsAt(a) == if a == address then Without(old(ClaimsAt(a)), e, a) else old(ClaimsAt(a))
      ensures mounts.Keys <= old(mounts.Keys)
      ensures old(forall a | a in mounts :: mounts[a] != []) ==> forall a | a in mounts :: mounts[a] != []
    {
      if address !in mounts {
        return;
      }
      var kept := Without(mounts[address], e, address);
      if kept != [] {
        mounts := mounts[address := kept];
      } else {
        mounts := mounts - {address};
      }
    }

    /** Closes a handle: this claim and no other. */
    method Release(handle: Handle)
      requires Valid()
      modifies this
      ensures Valid() && events == old(events) + [Released(handle.address, handle.id)]
    {
      var e := Released(handle.address, handle.id);
      forall a | a != handle.address
        ensures Without(ClaimsAt(a), e, a) == ClaimsAt(a)
      {
        OthersStay(ClaimsAt(a), e, a);
      }
      Drop(handle.address, e);
      Note(e);
    }

    method ReleaseRuntime(space: string, runtimeId: string)
      requires Valid()
      modifies this
      ensures Valid() && events == old(events) + [RuntimeReleased(space, runtimeId)]
    {
      DropEverywhere(RuntimeReleased(space, runtimeId));
      Note(RuntimeReleased(space, runtimeId));
    }

    method ReleaseOwner(owner: string)
      requires Valid()
      modifies this
      ensures Valid() && events == old(events) + [OwnerReleased(owner)]
    {
      DropEverywhere(OwnerReleased(owner));
      Note(OwnerReleased(owner));
    }

    method DropEverywhere(e: Event)
      requires forall a | a in mounts :: mounts[a] != []
      modifies `mounts
      ensures forall a :: ClaimsAt(a) == Without(old(ClaimsAt(a)), e, a)
      ensures forall a | a in mounts :: mounts[a] != []
    {
      var left := mounts.Keys;
      while left != {}
        invariant forall a | a in mounts :: mounts[a] != []
        invariant left <= old(mounts.Keys)
        invariant forall a :: ClaimsAt(a) == if a in left then old(ClaimsAt(a)) else Without(old(ClaimsAt(a)), e, a)
        decreases left
      {
        var address :| address in left;
        left := left - {address};
        Drop(address, e);
      }
    }

    /** The release goes into the log. */
    ghost method Note(e: Event)
      requires !e.Registered?
      requires forall a :: ClaimsAt(a) == Without(At(Live(events), a), e, a)
      requires forall a | a in mounts :: mounts[a] != []
      requires forall m | m in Live(events) :: m.claim.id < claimsMade
      modifies `events
      ensures Valid() && events == old(events) + [e]
    {
      forall a
        ensures At(Kept(Live(events), e), a) == Without(At(Live(events), a), e, a)
      {
        AtKept(Live(events), e, a);
      }
      ghost var before := Live(events);
      events := events + [e];
      assert events[..|events| - 1] == old(events);
      assert Live(events) == Kept(before, e);
    }
  }

  lemma {:induction false} OthersStay(claims: seq<Claim>, e: Event, address: string)
    requires forall c | c in claims :: !Drops(e, Mounted(address, c))
    ensures Without(claims, e, address) == claims
  {
    if claims != [] {
      OthersStay(claims[1..], e, address);
    }
  }
}
