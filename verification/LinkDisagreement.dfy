/** Every link whose identity disagrees with an unregistered hash it is cached under can spoil a consolidation. */
module LinkDisagreement {
  import opened Collections
  import opened Aliases
  import opened LinkChoice
  import opened LinkSteps
  import opened LinkSafety
  import opened LinkListing
  import P = PendingFiles

  // ----- single steps -----

  lemma ConsolidateOne(g: Setting, s: Reg, hash: Hash, keep: Option<LinkId>, l: LinkId)
    requires Listed(g, s, hash) == [l] && Spare(g, l, keep, None) && l in Open(s)
    ensures Consolidate(g, s, hash, keep, None) == LinkClosed(g, s.(status := s.status[l := Closed]), l)
  {
    hide Listed, Spare, LinkClosed;
    var r := CloseOne(g, s, l, keep, None);
    assert r == Teardown(g, s, l);
    assert Teardown(g, s, l) == LinkClosed(g, s.(status := s.status[l := Closed]), l);
    assert Consolidate(g, s, hash, keep, None) == CloseAll(g, s, [l], keep, None);
    assert [l][0] == l && [l][1..] == [];
    assert CloseAll(g, r, [], keep, None) == r;
    assert CloseAll(g, s, [l], keep, None) == r;
  }

  lemma ClosedIs(g: Setting, s: Reg, l: LinkId, f: Answer, t: Reg)
    requires Dropped(g, s, l) == f && !Unresolved(f.peer) && Refile(g, f.reg, l, Dest(g, f.peer)) == t
    ensures LinkClosed(g, s, l) == AfterClose(g, t, l, f.peer)
  {
    hide Dropped, Refile, Dest, AfterClose, Unresolved;
  }

  lemma RefileIs(g: Setting, s: Reg, l: LinkId, peer: Hash, x: LinkId, t: Reg)
    requires Others(g, s, l, peer) == [x] && s.activeLink == Some(l) && !s.handoff
    requires t == s.(byPeer := Put(s.byPeer, Plain(peer), x))
    ensures Refile(g, s, l, peer) == Notify(g, t, x, peer, true)
  {
    hide Others, Notify;
  }

  lemma NotifyIs(g: Setting, s: Reg, l: LinkId, hash: Hash, peer: Hash, t: Reg)
    requires EstablishedPeer(g, s, l, hash) == Answer(peer, s) && !IsHubPeer(peer) && !Unresolved(peer)
    requires RegisterLink(g, s, l, peer) == t && Consolidate(g, t, peer, Some(l), None) == t
    ensures Notify(g, s, l, hash, true) == Adopt(g, t, l, peer)
  {
    hide EstablishedPeer, RegisterLink, Consolidate, Adopt, IsHubPeer, Unresolved;
  }

  lemma {:induction false} KeptOnly(g: Setting, s: Reg, targets: seq<LinkId>, l: LinkId)
    requires forall x :: x in targets ==> x == l
    ensures CloseAll(g, s, targets, Some(l), None) == s
    decreases |targets|
  {
    hide Teardown, Open;
    if targets != [] {
      assert targets[0] in targets;
      assert forall x :: x in targets[1..] ==> x in targets;
      KeptOnly(g, s, targets[1..], l);
    }
  }

  lemma RegisterIs(g: Setting, s: Reg, l: LinkId, peer: Hash)
    requires Dest(g, peer) == peer && !Unresolved(peer) && Same(g, peer, peer) && RemotePeer(View(g, s), Now(g, s), l) == peer
    requires Canonical(g, peer, l) == peer && !Self(g, peer)
    ensures RegisterLink(g, s, l, peer)
         == s.(byPeer := Remove(Put(s.byPeer, Zoned(peer, TransportOf(g.env, l)), l), Plain(peer)), hashOf := Put(s.hashOf, l, peer))
  {
    hide Dest, Same, RemotePeer, Canonical, TransportOf, Self;
  }

  // ----- a doubtful link -----

  /** What reading identities ensures: each is registered, as its destination is, and none is the hub's name. */
  ghost predicate IdentitiesRegistered(g: Setting) {
    forall l :: !Unresolved(IdentityPeer(g, l)) ==>
      IdentityPeer(g, l) in g.aliases.identOf && !IsHubPeer(IdentityPeer(g, l))
  }

  /** c is a connect hash the cache may hold. */
  predicate Plausible(g: Setting, c: Hash) {
    !Unresolved(c) && !Self(g, c) && |c| == 32
  }

  /** Link x, cached under c: the hash is not registered and the identity is somebody else's. */
  predicate Doubtful(g: Setting, x: LinkId, c: Hash) {
    !IsRegistered(g, c) && !Agrees(g, x, c)
  }

  /** i is the peer that x really belongs to, a another link cached under c without an identity. */
  ghost predicate Setup(g: Setting, a: LinkId, x: LinkId, c: Hash, i: Hash) {
    && a != x && Plausible(g, c) && i == IdentityPeer(g, x) && !Unresolved(i) && !IsHubPeer(i) && !Self(g, i)
    && Dest(g, c) == c && Dest(g, i) == i && Same(g, c, c) && Same(g, i, i) && !Same(g, c, i)
    && Canonical(g, c, a) == c && Canonical(g, c, x) == i && Canonical(g, i, x) == i && Unresolved(IdentityPeer(g, a))
  }

  lemma DoubtfulSetup(g: Setting, a: LinkId, x: LinkId, c: Hash)
    requires Steady(g) && IdentitiesRegistered(g) && Plausible(g, c) && Doubtful(g, x, c)
    requires a != x && Unresolved(IdentityPeer(g, a))
    ensures Setup(g, a, x, c, IdentityPeer(g, x))
  {
    hide Transitive, Same;
    var i := IdentityPeer(g, x);
    DestSame(g, c);
    DestSame(g, i);
    LookupNotSelf(g, c, x);
    UnregisteredBare(g, c);
    SameSym(g, c, i);
  }

  lemma UnregisteredBare(g: Setting, c: Hash)
    requires Steady(g) && c != "" && !IsRegistered(g, c)
    ensures Dest(g, c) == c && Recalled(g, c) == ""
  {
    hide Transitive, Same;
    if Recalled(g, c) != "" {
      var r := Recalled(g, c);
      DestSame(g, r);
      RegisteredSame(g, r, c);
    }
  }

  // ----- the registry -----

  function Cache(x: LinkId, h: Hash): Dict<LinkId, Hash> {
    assert Distinct([x]);
    RawDict([x], map[x := h])
  }

  function CacheBoth(a: LinkId, x: LinkId, h: Hash): Dict<LinkId, Hash>
    requires a != x
  {
    assert Distinct([a, x]);
    RawDict([a, x], map[a := h, x := h])
  }

  function FiledOne(k: LinkKey, l: LinkId): Dict<LinkKey, LinkId> {
    assert Distinct([k]);
    RawDict([k], map[k := l])
  }

  /** Links a and x are cached under c; a is active, and filed under the peer that x belongs to. */
  function Start(a: LinkId, x: LinkId, c: Hash, i: Hash): Reg
    requires a != x
  {
    Reg(map[a := Active, x := Active], [a, x], CacheBoth(a, x, c), FiledOne(Plain(i), a),
        Some(a), "", "", None, Some(a), false, P.START)
  }

  lemma FirstList(g: Setting, a: LinkId, x: LinkId, c: Hash, i: Hash)
    requires Setup(g, a, x, c, i)
    ensures Listed(g, Start(a, x, c, i), i) == [a]
  {
    hide Equivalent, Canonical;
    var t, env := View(g, Start(a, x, c, i)), Now(g, Start(a, x, c, i));
    FilterNone([a, x], l => l in t.hashOf.vals && l in t.links && Equivalent(t.aliases, t.hashOf.vals[l], i));
    assert CachedFor(t, i) == [];
    assert ActiveFor(t, env, i) == [];
    KeyOf(t, i, a);
    assert [] + [a] == [a];
    DedupeOne(a);
  }

  lemma DedupeOne(l: LinkId)
    ensures Dedupe([l]) == [l]
  {
    assert [l][..0] == [];
  }

  lemma KeyOf(t: Table, i: Hash, a: LinkId)
    requires t.byPeer == FiledOne(Plain(i), a) && Equivalent(t.aliases, i, i)
    ensures KeysFor(t, i) == [Plain(i)] && Registered(t, [Plain(i)]) == [a]
  {
    hide Equivalent;
    assert [Plain(i)][1..] == [];
  }

  /** Link a closed. */
  function Marked(a: LinkId, x: LinkId, c: Hash, i: Hash): Reg
    requires a != x
  {
    Start(a, x, c, i).(status := map[a := Closed, x := Active])
  }

  /** And forgotten. */
  function Left(a: LinkId, x: LinkId, c: Hash, i: Hash): Reg
    requires a != x
  {
    Marked(a, x, c, i).(links := [x], hashOf := Cache(x, c))
  }

  lemma Drop(g: Setting, a: LinkId, x: LinkId, c: Hash, i: Hash)
    requires Setup(g, a, x, c, i)
    ensures Dropped(g, Marked(a, x, c, i), a) == Answer(c, Left(a, x, c, i))
  {
    RemoveFirst(a, x, c);
    FilterOut(a, x);
    hide Canonical, Dest, Same, Filter, Remove, IdentityPeer;
    assert PeerForLink(g, Marked(a, x, c, i), a, "") == Answer(c, Marked(a, x, c, i));
  }

  lemma RemoveFirst(a: LinkId, x: LinkId, c: Hash)
    requires a != x
    ensures Remove(CacheBoth(a, x, c), a) == Cache(x, c)
  {
    assert [a, x][1..] == [x] && [x][1..] == [] && Without([x], a) == [x];
    assert Remove(CacheBoth(a, x, c), a).vals == Cache(x, c).vals;
  }

  lemma FilterOut(a: LinkId, x: LinkId)
    requires a != x
    ensures Filter([a, x], (l: LinkId) => l != a) == [x]
  {
    assert [a, x][1..] == [x] && [x][1..] == [];
  }

  lemma OtherLink(g: Setting, a: LinkId, x: LinkId, c: Hash, i: Hash)
    requires Setup(g, a, x, c, i)
    ensures Others(g, Left(a, x, c, i), a, c) == [x]
  {
    hide Equivalent, Canonical;
    var t, env := View(g, Left(a, x, c, i)), Now(g, Left(a, x, c, i));
    FilterAll([x], l => l in t.hashOf.vals && l in t.links && Equivalent(t.aliases, t.hashOf.vals[l], c));
    assert CachedFor(t, c) == [x];
    FilterAll([x], l => IsActive(env, l));
    assert ActiveFor(t, env, c) == [x];
    FilterAll([x], (l: LinkId) => l != a);
  }

  /** Link x takes over the registration under c. */
  function Moved(a: LinkId, x: LinkId, c: Hash, i: Hash): Reg
    requires a != x
  {
    Left(a, x, c, i).(byPeer := Put(Left(a, x, c, i).byPeer, Plain(c), x))
  }

  /** And is established, as its identity says, under i. */
  function Identified(g: Setting, a: LinkId, x: LinkId, c: Hash, i: Hash): Reg
    requires a != x
  {
    var m := Moved(a, x, c, i);
    m.(byPeer := Remove(Put(m.byPeer, Zoned(i, TransportOf(g.env, x)), x), Plain(i)), hashOf := Cache(x, i))
  }

  lemma Establish(g: Setting, a: LinkId, x: LinkId, c: Hash, i: Hash)
    requires Setup(g, a, x, c, i)
    ensures EstablishedPeer(g, Moved(a, x, c, i), x, c) == Answer(i, Moved(a, x, c, i))
    ensures RegisterLink(g, Moved(a, x, c, i), x, i) == Identified(g, a, x, c, i)
  {
    RemoteOf(g, Moved(a, x, c, i), x);
    Recache(a, x, c, i);
    hide Canonical, Dest, Same, RemotePeer, IdentityPeer, Self, RegisterLink, Put, Remove, Moved, EstablishedPeer, TransportOf;
    EstablishedIs(g, Moved(a, x, c, i), x, c, i);
    RegisterIs(g, Moved(a, x, c, i), x, i);
  }

  lemma RemoteOf(g: Setting, s: Reg, x: LinkId)
    requires !Unresolved(IdentityPeer(g, x)) && Dest(g, IdentityPeer(g, x)) == IdentityPeer(g, x)
    ensures RemotePeer(View(g, s), Now(g, s), x) == IdentityPeer(g, x)
  {
  }

  lemma EstablishedIs(g: Setting, s: Reg, l: LinkId, hash: Hash, peer: Hash)
    requires Canonical(g, hash, l) == peer && !Unresolved(peer)
    ensures EstablishedPeer(g, s, l, hash) == Answer(peer, s)
  {
    hide Canonical, Unresolved;
  }

  lemma Recache(a: LinkId, x: LinkId, c: Hash, i: Hash)
    requires a != x
    ensures Put(Moved(a, x, c, i).hashOf, x, i) == Cache(x, i)
  {
    assert Put(Cache(x, c), x, i).vals == Cache(x, i).vals;
  }

  lemma OnlyLinkListed(g: Setting, a: LinkId, x: LinkId, c: Hash, i: Hash, y: LinkId)
    requires Setup(g, a, x, c, i) && y in Listed(g, Identified(g, a, x, c, i), i)
    ensures y == x
  {
    hide DestFor, Equivalent, LinksFor, Canonical;
    OnlyLinkFiled(g, a, x, c, i);
    hide Identified;
    LinksForMeaning(View(g, Identified(g, a, x, c, i)), Now(g, Identified(g, a, x, c, i)), i, y);
  }

  lemma OnlyLinkFiled(g: Setting, a: LinkId, x: LinkId, c: Hash, i: Hash)
    requires a != x
    ensures var s := Identified(g, a, x, c, i);
            && (forall k :: k in s.byPeer.vals ==> s.byPeer.vals[k] == x)
            && (forall l :: l in s.hashOf.vals ==> l == x)
  {
    hide TransportOf;
  }

  function Adopted(g: Setting, a: LinkId, x: LinkId, c: Hash, i: Hash): Reg
    requires a != x
  {
    Identified(g, a, x, c, i).(activeLink := Some(x), activePeer := i, sessionPeer := i, sendLink := Some(x))
  }

  lemma Inner(g: Setting, a: LinkId, x: LinkId, c: Hash, i: Hash)
    requires Setup(g, a, x, c, i)
    ensures Notify(g, Moved(a, x, c, i), x, c, true) == Adopted(g, a, x, c, i)
  {
    Establish(g, a, x, c, i);
    NoSession(g, a, x, c, i);
    hide Setup, EstablishedPeer, RegisterLink, Consolidate, Adopt, Notify, Moved, Identified;
    NestedIdle(g, a, x, c, i);
    SetupNames(g, a, x, c, i);
    NotifyIs(g, Moved(a, x, c, i), x, c, i, Identified(g, a, x, c, i));
    AdoptFree(g, Identified(g, a, x, c, i), x, i);
  }

  lemma SetupNames(g: Setting, a: LinkId, x: LinkId, c: Hash, i: Hash)
    requires Setup(g, a, x, c, i)
    ensures !IsHubPeer(i) && !Unresolved(i) && !Unresolved(c) && a != x && Dest(g, c) == c
  {
  }

  lemma NestedIdle(g: Setting, a: LinkId, x: LinkId, c: Hash, i: Hash)
    requires Setup(g, a, x, c, i)
    ensures Consolidate(g, Identified(g, a, x, c, i), i, Some(x), None) == Identified(g, a, x, c, i)
  {
    hide Listed, CloseAll, Identified;
    var s := Identified(g, a, x, c, i);
    var targets := Listed(g, s, i);
    forall y | y in targets
      ensures y == x
    {
      OnlyLinkListed(g, a, x, c, i, y);
    }
    KeptOnly(g, s, targets, x);
  }

  lemma NoSession(g: Setting, a: LinkId, x: LinkId, c: Hash, i: Hash)
    requires a != x
    ensures Identified(g, a, x, c, i).sessionPeer == ""
  {
    hide TransportOf;
  }

  lemma AdoptFree(g: Setting, s: Reg, l: LinkId, peer: Hash)
    requires s.sessionPeer == ""
    ensures Adopt(g, s, l, peer) == s.(activeLink := Some(l), activePeer := peer, sessionPeer := peer, sendLink := Some(l))
  {
  }

  lemma StepsFit(g: Setting, a: LinkId, x: LinkId, c: Hash, i: Hash)
    requires a != x
    ensures var s := Start(a, x, c, i);
            && s.(status := s.status[a := Closed]) == Marked(a, x, c, i) && a in Open(s)
            && Left(a, x, c, i).activeLink == Some(a) && !Left(a, x, c, i).handoff
            && Moved(a, x, c, i) == Left(a, x, c, i).(byPeer := Put(Left(a, x, c, i).byPeer, Plain(c), x))
  {
    assert Start(a, x, c, i).status[a := Closed] == Marked(a, x, c, i).status;
  }

  lemma RefileStep(g: Setting, a: LinkId, x: LinkId, c: Hash, i: Hash)
    requires Setup(g, a, x, c, i)
    ensures Refile(g, Left(a, x, c, i), a, c) == Adopted(g, a, x, c, i)
  {
    OtherLink(g, a, x, c, i);
    Inner(g, a, x, c, i);
    StepsFit(g, a, x, c, i);
    SetupNames(g, a, x, c, i);
    hide Setup, Others, Notify, Refile, Adopted, Start, Marked, Left, Moved, Put, Open;
    RefileIs(g, Left(a, x, c, i), a, c, x, Moved(a, x, c, i));
  }

  lemma ClosedStep(g: Setting, a: LinkId, x: LinkId, c: Hash, i: Hash)
    requires Setup(g, a, x, c, i)
    ensures LinkClosed(g, Marked(a, x, c, i), a) == AfterClose(g, Adopted(g, a, x, c, i), a, c)
  {
    SetupNames(g, a, x, c, i);
    Drop(g, a, x, c, i);
    RefileStep(g, a, x, c, i);
    hide Setup, Refile, Dropped, LinkClosed, Adopted, Dest, AfterClose, Marked, Left, Unresolved;
    ClosedIs(g, Marked(a, x, c, i), a, Answer(c, Left(a, x, c, i)), Adopted(g, a, x, c, i));
  }

  lemma OuterSteps(g: Setting, a: LinkId, x: LinkId, c: Hash, i: Hash)
    requires Setup(g, a, x, c, i)
    ensures Consolidate(g, Start(a, x, c, i), i, None, None) == AfterClose(g, Adopted(g, a, x, c, i), a, c)
  {
    SetupNames(g, a, x, c, i);
    FirstList(g, a, x, c, i);
    ClosedStep(g, a, x, c, i);
    StepsFit(g, a, x, c, i);
    hide Setup, LinkClosed, Listed, Consolidate, Adopted, AfterClose, Start, Marked, Left, Moved, Put, Open;
    ConsolidateAlone(g, Start(a, x, c, i), Marked(a, x, c, i), i, a);
  }

  lemma ConsolidateAlone(g: Setting, s: Reg, t: Reg, hash: Hash, l: LinkId)
    requires Listed(g, s, hash) == [l] && l in Open(s) && t == s.(status := s.status[l := Closed])
    ensures Consolidate(g, s, hash, None, None) == LinkClosed(g, t, l)
  {
    hide Listed, LinkClosed, Consolidate, Open;
    ConsolidateOne(g, s, hash, None, l);
  }

  lemma StillListed(g: Setting, r: Reg, x: LinkId, i: Hash)
    requires r.hashOf == Cache(x, i) && x in r.links && x in r.status && r.status[x] == Active
    requires Dest(g, i) == i && Same(g, i, i) && !Unresolved(i)
    ensures x in Listed(g, r, i) && Spare(g, x, None, None) && x in Open(r)
  {
    hide LinksFor, Equivalent, DestFor;
    LinksForMeaning(View(g, r), Now(g, r), i, x);
  }

  /** Consolidating the peer x belongs to leaves x open, listed for it and spare. */
  lemma SpareLeftOpen(g: Setting, a: LinkId, x: LinkId, c: Hash, i: Hash)
    requires Setup(g, a, x, c, i)
    ensures var r := Consolidate(g, Start(a, x, c, i), i, None, None);
            x in Listed(g, r, i) && Spare(g, x, None, None) && x in Open(r)
  {
    OuterSteps(g, a, x, c, i);
    var t := Adopted(g, a, x, c, i);
    AfterCloseWinds(g, t, a, c);
    hide AfterClose, Consolidate, Canonical, Equivalent, DestFor;
    StillListed(g, AfterClose(g, t, a, c), x, i);
  }

  // ----- the exact condition, link by link -----

  /** Every cached link but x is coherent, and x is cached under c. */
  ghost predicate OnlyDoubt(g: Setting, s: Reg, x: LinkId, c: Hash) {
    && x in s.hashOf.vals && s.hashOf.vals[x] == c
    && forall y :: y in s.hashOf.vals && y != x ==> Coherent(g, y, s.hashOf.vals[y])
  }

  /** On return no link listed for the peer is open and spare. */
  ghost predicate LeavesNone(g: Setting, s: Reg, hash: Hash, keep: Option<LinkId>, transport: Option<Transport>) {
    var r := Consolidate(g, s, hash, keep, transport);
    forall y :: y in Listed(g, r, hash) && Spare(g, y, keep, transport) ==> y !in Open(r)
  }

  /** Whatever the rest of the registry, if only x is in doubt no consolidation leaves a spare link. */
  ghost predicate Trusted(g: Setting, x: LinkId, c: Hash) {
    forall s: Reg, hash: Hash, keep: Option<LinkId>, transport: Option<Transport> ::
      OnlyDoubt(g, s, x, c) ==> LeavesNone(g, s, hash, keep, transport)
  }

  lemma CoherentTrusted(g: Setting, x: LinkId, c: Hash)
    requires Steady(g) && Coherent(g, x, c)
    ensures Trusted(g, x, c)
  {
    hide Steady, Coherent, Listed, Consolidate, Spare, Open;
    forall s: Reg, hash: Hash, keep: Option<LinkId>, transport: Option<Transport> | OnlyDoubt(g, s, x, c)
      ensures LeavesNone(g, s, hash, keep, transport)
    {
      var r := Consolidate(g, s, hash, keep, transport);
      forall y | y in Listed(g, r, hash) && Spare(g, y, keep, transport)
        ensures y !in Open(r)
      {
        NoSpareLeft(g, s, hash, keep, transport, y);
      }
    }
  }

  lemma PlausibleLookup(g: Setting, x: LinkId, c: Hash)
    requires Steady(g) && Plausible(g, c)
    ensures Canonical(g, c, x) != ""
  {
    hide Transitive, Same;
    DestSame(g, c);
    if !IsRegistered(g, c) {
      UnregisteredBare(g, c);
    }
  }

  /** A link no fact is known of has no identity. */
  lemma FreshLink(g: Setting, x: LinkId) returns (a: LinkId)
    ensures a != x && Unresolved(IdentityPeer(g, a))
  {
    var known := g.env.info.Keys + {x};
    a := Above(known);
    assert a !in g.env.info;
  }

  lemma Above(s: set<LinkId>) returns (a: LinkId)
    ensures a !in s && forall y :: y in s ==> y < a
  {
    if y :| y in s {
      var b := Above(s - {y});
      a := if b > y then b else y + 1;
      forall z | z in s
        ensures z < a
      {
        assert z == y || z in s - {y};
      }
    } else {
      a := 0;
    }
  }

  lemma StartDoubt(g: Setting, a: LinkId, x: LinkId, c: Hash, i: Hash)
    requires Setup(g, a, x, c, i)
    ensures OnlyDoubt(g, Start(a, x, c, i), x, c)
  {
    hide Canonical, Dest, Same, IdentityPeer;
  }

  /** A link can be trusted exactly when the hash it is cached under is registered or agrees with its identity:
      otherwise there is a registry, in order but for it, where a consolidation leaves it open and spare. */
  lemma TrustedIff(g: Setting, x: LinkId, c: Hash)
    requires Steady(g) && IdentitiesRegistered(g) && Plausible(g, c)
    ensures Trusted(g, x, c) <==> IsRegistered(g, c) || Agrees(g, x, c)
  {
    hide Steady, IdentitiesRegistered, Setup, Trusted, IsRegistered, Agrees, Start, IdentityPeer, Canonical, Self, Unresolved;
    if Doubtful(g, x, c) {
      var a := FreshLink(g, x);
      DoubtfulSetup(g, a, x, c);
      var i := IdentityPeer(g, x);
      SetupNames(g, a, x, c, i);
      StartDoubt(g, a, x, c, i);
      SpareLeftOpen(g, a, x, c, i);
      NotTrusted(g, Start(a, x, c, i), x, c, i);
    } else {
      PlausibleLookup(g, x, c);
      PlausibleCoherent(g, x, c);
      CoherentTrusted(g, x, c);
    }
  }

  lemma PlausibleCoherent(g: Setting, x: LinkId, c: Hash)
    requires Plausible(g, c) && Canonical(g, c, x) != "" && (IsRegistered(g, c) || Agrees(g, x, c))
    ensures Coherent(g, x, c)
  {
    hide Canonical, IsRegistered, Agrees;
  }

  lemma NotTrusted(g: Setting, s: Reg, x: LinkId, c: Hash, i: Hash)
    requires OnlyDoubt(g, s, x, c)
    requires var r := Consolidate(g, s, i, None, None); x in Listed(g, r, i) && Spare(g, x, None, None) && x in Open(r)
    ensures !Trusted(g, x, c)
  {
    hide OnlyDoubt, Consolidate, Listed, Spare, Open;
    assert !LeavesNone(g, s, i, None, None);
  }

  // ----- and there are such links -----

  // Link 3 has been identified as p's; a and link 3 are still cached under a hash nothing is registered for.
  const C: Hash := "0123456789abcdef0123456789abcdef"
  const P3 := LinkInfo(Lan, true, false, "p", None, 500)
  const G := Setting(AliasMap(map["i" := "p"], map["p" := "i"]),
                     Env(map[], map[3 := P3], map[], {}, map[], false, true, true, {}, false, ""),
                     map[], map[], {}, false, false, {})

  lemma GSteady()
    ensures Steady(G) && IdentitiesRegistered(G) && Plausible(G, C)
  {
    assert RolesHarmless(G.aliases);
    TransitiveIff(G.aliases) by {
      hide Equivalent;
    }
    hide Transitive, Equivalent;
    assert |C| == 32;
  }

  lemma GDoubtful()
    ensures Doubtful(G, 3, C)
  {
    assert C[0] == '0' && "p"[0] == 'p' && "i"[0] == 'i';
    assert C != "p" && C != "i";
  }

  /** A setting the program can be in, and a registry in it, where consolidation leaves a spare link open. */
  lemma SomeSpareLeft()
    ensures Steady(G) && IdentitiesRegistered(G)
    ensures exists s: Reg :: OnlyDoubt(G, s, 3, C) && !LeavesNone(G, s, "p", None, None)
  {
    GSteady();
    GDoubtful();
    DoubtfulSetup(G, 1, 3, C) by {
      assert Unresolved(IdentityPeer(G, 1));
    }
    assert IdentityPeer(G, 3) == "p";
    hide Steady, IdentitiesRegistered, Setup, Start, Consolidate, Listed, Spare, Open;
    StartDoubt(G, 1, 3, C, "p");
    SpareLeftOpen(G, 1, 3, C, "p");
    assert !LeavesNone(G, Start(1, 3, C, "p"), "p", None, None);
  }
}
