/** On return from a consolidation: which links are listed for the peer, and when none of them is a spare one. */
module LinkListing {
  import opened Collections
  import opened Aliases
  import opened LinkChoice
  import opened LinkSteps
  import opened LinkSafety

  /** x is a live listed link of s that the cache holds for peer p. */
  predicate Known(g: Setting, s: Reg, x: LinkId, p: Hash) {
    x in s.hashOf.vals && x in s.links && IsActive(Now(g, s), x) && Same(g, s.hashOf.vals[x], p)
  }

  /** r lists nothing that s did not: no link revives, cached peers stay equivalent, and a new registration is of a
      link that was already known for that peer. */
  ghost predicate Evolved(g: Setting, s: Reg, r: Reg) {
    && (forall x :: IsActive(Now(g, r), x) ==> IsActive(Now(g, s), x))
    && (forall x :: x in r.links ==> x in s.links)
    && (forall x :: x in r.hashOf.vals ==>
          x in s.hashOf.vals && (r.hashOf.vals[x] == s.hashOf.vals[x] || Same(g, r.hashOf.vals[x], s.hashOf.vals[x])))
    && (forall k :: k in r.byPeer.vals ==>
          || (k in s.byPeer.vals && s.byPeer.vals[k] == r.byPeer.vals[k])
          || Known(g, s, r.byPeer.vals[k], k.peer))
  }

  lemma SameTrans(g: Setting, a: Hash, b: Hash, c: Hash)
    requires Transitive(g.aliases) && Same(g, a, b) && Same(g, b, c)
    ensures Same(g, a, c)
  {
    hide Equivalent;
  }

  lemma SameSym(g: Setting, a: Hash, b: Hash)
    ensures Same(g, a, b) == Same(g, b, a)
  {
    EquivalentSymmetric(g.aliases, a, b);
  }

  lemma EvolvedSelf(g: Setting, s: Reg)
    ensures Evolved(g, s, s)
  {
  }

  lemma KnownBefore(g: Setting, s: Reg, t: Reg, x: LinkId, p: Hash)
    requires Transitive(g.aliases) && Evolved(g, s, t) && Known(g, t, x, p)
    ensures Known(g, s, x, p)
  {
    hide Transitive, Equivalent, IsActive, Same;
    SameSym(g, t.hashOf.vals[x], s.hashOf.vals[x]);
    if t.hashOf.vals[x] != s.hashOf.vals[x] {
      SameTrans(g, s.hashOf.vals[x], t.hashOf.vals[x], p);
    }
  }

  lemma EvolvedTrans(g: Setting, s: Reg, t: Reg, r: Reg)
    requires Transitive(g.aliases) && Evolved(g, s, t) && Evolved(g, t, r)
    ensures Evolved(g, s, r)
  {
    hide Transitive, Known, Same, IsActive;
    forall k | k in r.byPeer.vals && Known(g, t, r.byPeer.vals[k], k.peer)
      ensures Known(g, s, r.byPeer.vals[k], k.peer)
    {
      KnownBefore(g, s, t, r.byPeer.vals[k], k.peer);
    }
    forall x | x in r.hashOf.vals
      ensures x in s.hashOf.vals && (r.hashOf.vals[x] == s.hashOf.vals[x] || Same(g, r.hashOf.vals[x], s.hashOf.vals[x]))
    {
      if Same(g, r.hashOf.vals[x], t.hashOf.vals[x]) && Same(g, t.hashOf.vals[x], s.hashOf.vals[x]) {
        SameTrans(g, r.hashOf.vals[x], t.hashOf.vals[x], s.hashOf.vals[x]);
      }
    }
  }

  /** Whatever evolves from s lists no link for a peer that s did not list for it. */
  lemma EvolvedLists(g: Setting, s: Reg, r: Reg, hash: Hash, x: LinkId)
    requires Transitive(g.aliases) && Evolved(g, s, r) && x in Listed(g, r, hash)
    ensures x in Listed(g, s, hash)
  {
    hide Transitive, LinksFor, Evolved;
    var peer := Dest(g, hash);
    LinksForMeaning(View(g, r), Now(g, r), hash, x);
    LinksForMeaning(View(g, s), Now(g, s), hash, x);
    if k :| k in r.byPeer.vals && r.byPeer.vals[k] == x && Same(g, k.peer, peer) {
      RegisteredBefore(g, s, r, peer, k);
    } else {
      assert Known(g, r, x, peer);
      KnownBefore(g, s, r, x, peer);
    }
  }

  lemma RegisteredBefore(g: Setting, s: Reg, r: Reg, peer: Hash, k: LinkKey)
    requires Transitive(g.aliases) && Evolved(g, s, r) && k in r.byPeer.vals && Same(g, k.peer, peer)
    ensures Known(g, s, r.byPeer.vals[k], peer) || (k in s.byPeer.vals && s.byPeer.vals[k] == r.byPeer.vals[k])
  {
    hide Transitive, IsActive, Same;
    var x := r.byPeer.vals[k];
    if Known(g, s, x, k.peer) {
      SameTrans(g, s.hashOf.vals[x], k.peer, peer);
    }
  }

  // ----- pieces -----

  lemma DroppedEvolves(g: Setting, s: Reg, l: LinkId)
    ensures Evolved(g, s, Dropped(g, s, l).reg)
    ensures var r := Dropped(g, s, l).reg; forall x :: x in r.hashOf.vals ==> x in s.hashOf.vals && r.hashOf.vals[x] == s.hashOf.vals[x]
  {
    hide Dest, Same, PeerForLink, IsActive;
    PeerTouchesOne(g, s, l, "");
  }

  /** Asking for a link's peer may change what the cache says of that link, and nothing else. */
  lemma PeerTouchesOne(g: Setting, s: Reg, l: LinkId, fallback: Hash)
    ensures var r := PeerForLink(g, s, l, fallback).reg;
            && r.(hashOf := s.hashOf) == s
            && forall x :: x != l && x in r.hashOf.vals ==> x in s.hashOf.vals && r.hashOf.vals[x] == s.hashOf.vals[x]
  {
    hide Canonical, Worth, Resolve;
  }

  lemma UnlinkEvolves(g: Setting, s: Reg, h: Hash)
    ensures Evolved(g, s, Unlink(g, s, h)) && Unlink(g, s, h).hashOf == s.hashOf
  {
    hide Dest, Same;
  }

  lemma AfterCloseEvolves(g: Setting, s: Reg, l: LinkId, remote: Hash)
    ensures Evolved(g, s, AfterClose(g, s, l, remote)) && AfterClose(g, s, l, remote).hashOf == s.hashOf
  {
    hide Dest, FilesStep, UserDisconnected, LinkForPeer, Same;
  }

  lemma PutEvolves(g: Setting, s: Reg, x: LinkId, p: Hash)
    requires Known(g, s, x, p)
    ensures Evolved(g, s, s.(byPeer := Put(s.byPeer, Plain(p), x)))
  {
    hide Same, IsActive;
  }

  lemma OthersAreKnown(g: Setting, s: Reg, l: LinkId, peer: Hash, x: LinkId)
    requires x in Others(g, s, l, peer)
    ensures Known(g, s, x, peer)
  {
    hide Others, Same, IsActive;
    OthersKnown(g, s, l, peer, x);
  }

  lemma CloseMarkEvolves(g: Setting, s: Reg, l: LinkId)
    requires l in Open(s)
    ensures Evolved(g, s, s.(status := s.status[l := Closed]))
    ensures Open(s.(status := s.status[l := Closed])) == Open(s) - {l}
  {
    hide Same;
  }

  // ----- when nothing is promoted -----

  lemma ClosedQuietEvolves(g: Setting, s: Reg, l: LinkId)
    requires Transitive(g.aliases) && Quiet(s, {l})
    ensures Evolved(g, s, LinkClosed(g, s, l))
  {
    hide Evolved, Transitive, Dropped, AfterClose, Others, Unlink, Known, Dest;
    var f := Dropped(g, s, l);
    DroppedEvolves(g, s, l);
    ForgetKeepsRest(g, s, l);
    EvolvedSelf(g, f.reg);
    var t := f.reg;
    if !Unresolved(f.peer) {
      var peer := Dest(g, f.peer);
      t := Refile(g, f.reg, l, peer);
      UnlinkEvolves(g, f.reg, peer);
      if Others(g, f.reg, l, peer) != [] {
        OthersAreKnown(g, f.reg, l, peer, Others(g, f.reg, l, peer)[0]);
        PutEvolves(g, f.reg, Others(g, f.reg, l, peer)[0], peer);
      }
    }
    EvolvedTrans(g, s, f.reg, t);
    AfterCloseEvolves(g, t, l, f.peer);
    EvolvedTrans(g, s, t, AfterClose(g, t, l, f.peer));
  }

  lemma TeardownQuietEvolves(g: Setting, s: Reg, l: LinkId)
    requires Transitive(g.aliases) && l in Open(s) && Quiet(s, {l})
    ensures Evolved(g, s, Teardown(g, s, l))
  {
    hide Evolved, Transitive, LinkClosed;
    var t := s.(status := s.status[l := Closed]);
    CloseMarkEvolves(g, s, l);
    ClosedQuietEvolves(g, t, l);
    EvolvedTrans(g, s, t, LinkClosed(g, t, l));
  }

  lemma {:induction false} CloseAllQuietEvolves(g: Setting, s: Reg, targets: seq<LinkId>, keep: Option<LinkId>, transport: Option<Transport>)
    requires Transitive(g.aliases) && Quiet(s, set l | l in targets && Spare(g, l, keep, transport))
    ensures Evolved(g, s, CloseAll(g, s, targets, keep, transport))
    decreases |targets|
  {
    hide Evolved, Transitive, Spare, Teardown, Open;
    EvolvedSelf(g, s);
    if targets != [] {
      var l := targets[0];
      assert forall x :: x in targets <==> x == l || x in targets[1..];
      var t := CloseOne(g, s, l, keep, transport);
      if Spare(g, l, keep, transport) && l in Open(s) {
        TeardownQuietEvolves(g, s, l);
        TeardownQuiet(g, s, l);
      }
      CloseAllQuietEvolves(g, t, targets[1..], keep, transport);
      EvolvedTrans(g, s, t, CloseAll(g, t, targets[1..], keep, transport));
    }
  }

  // ----- when a link may be promoted -----

  predicate Agrees(g: Setting, x: LinkId, h: Hash) {
    Unresolved(IdentityPeer(g, x)) || Same(g, IdentityPeer(g, x), h)
  }

  /** The hash resolves to a destination that some identity was registered with. */
  predicate IsRegistered(g: Setting, h: Hash) {
    Dest(g, h) in g.aliases.identOf
  }

  /** What the cache says of a link can be looked up again, and, unless it is a registered hash, agrees with the
      link's identity. */
  predicate Coherent(g: Setting, x: LinkId, c: Hash) {
    !Unresolved(c) && !Self(g, c) && (IsRegistered(g, c) || Agrees(g, x, c)) && Canonical(g, c, x) != ""
  }

  predicate Orderly(g: Setting, s: Reg) {
    forall x :: x in s.hashOf.vals ==> Coherent(g, x, s.hashOf.vals[x])
  }

  /** Aliases without harmful double roles, no other peer filed under our own hashes, and recall in step with them:
      a recalled destination is registered, and equivalent to the hash it was recalled for. */
  ghost predicate Steady(g: Setting) {
    && Consistent(g.aliases) && Transitive(g.aliases) && UNKNOWN !in g.aliases.identOf && !Self(g, UNKNOWN)
    && (forall h :: Self(g, Dest(g, h)) ==> Self(g, h))
    && (forall h :: Recalled(g, h) != "" ==> Recalled(g, h) in g.aliases.identOf && Same(g, Recalled(g, h), h))
  }

  lemma DestSame(g: Setting, h: Hash)
    requires Consistent(g.aliases) && h != ""
    ensures Same(g, Dest(g, h), h) && Dest(g, Dest(g, h)) == Dest(g, h) && Dest(g, h) != ""
  {
  }

  lemma AgreesMove(g: Setting, x: LinkId, h: Hash, c: Hash)
    requires Transitive(g.aliases) && Agrees(g, x, h) && Same(g, h, c)
    ensures Agrees(g, x, c)
  {
    hide Transitive, Same;
    if Same(g, IdentityPeer(g, x), h) {
      SameTrans(g, IdentityPeer(g, x), h, c);
    }
  }

  lemma IdentityCoherent(g: Setting, x: LinkId)
    requires Steady(g) && !Unresolved(IdentityPeer(g, x))
    ensures Coherent(g, x, IdentityPeer(g, x)) && Agrees(g, x, IdentityPeer(g, x))
  {
    hide Transitive, RolesHarmless;
    DestSame(g, IdentityPeer(g, x));
  }

  /** Looking a hash up that agrees with the link's identity gives an equivalent, coherent one, or nothing. */
  lemma CanonicalSound(g: Setting, h: Hash, x: LinkId)
    requires Steady(g) && !Unresolved(h) && Agrees(g, x, h)
    ensures var c := Canonical(g, h, x); c != "" ==> Same(g, c, h) && Coherent(g, x, c) && Agrees(g, x, c)
  {
    hide Transitive;
    var c := Canonical(g, h, x);
    DestSame(g, h);
    if !Unresolved(IdentityPeer(g, x)) {
      IdentityCoherent(g, x);
    }
    if c != "" && c == IdentityPeer(g, x) {
      assert !Unresolved(IdentityPeer(g, x)) ==> Same(g, c, h);
    }
    if c != "" && Unresolved(IdentityPeer(g, x)) {
      CanonicalPlain(g, h, x);
    } else if c != "" && c != IdentityPeer(g, x) {
      CanonicalPlain(g, h, x);
      SameSym(g, c, h);
      AgreesMove(g, x, h, c);
    }
  }

  lemma CanonicalPlain(g: Setting, h: Hash, x: LinkId)
    requires Steady(g) && !Unresolved(h) && Canonical(g, h, x) != ""
    requires Canonical(g, h, x) != IdentityPeer(g, x) || Unresolved(IdentityPeer(g, x))
    ensures var c := Canonical(g, h, x); Same(g, c, h) && !Unresolved(c) && !Self(g, c) && Canonical(g, c, x) != ""
  {
    hide Transitive, Same;
    DestSame(g, h);
    var c := Canonical(g, h, x);
    if c == Dest(g, h) {
    } else {
      assert c == Recalled(g, h);
      DestSame(g, c);
    }
  }

  /** Caching a hash of the link's own peer files the link under an equivalent, coherent hash, or changes nothing. */
  lemma CacheSound(g: Setting, s: Reg, x: LinkId, h: Hash)
    requires Steady(g) && !Unresolved(h) && Agrees(g, x, h)
    ensures var r := CachePeer(g, s, x, h);
            var c := Canonical(g, h, x);
            r == s || (r == s.(hashOf := Put(s.hashOf, x, c)) && Same(g, c, h) && Coherent(g, x, c))
  {
    hide Steady, Same, Canonical, Agrees, Coherent;
    CanonicalSound(g, h, x);
  }

  /** Being registered is a property of the peer, not of the hash it is named by. */
  lemma RegisteredSame(g: Setting, a: Hash, b: Hash)
    requires Consistent(g.aliases) && Same(g, a, b) && IsRegistered(g, a)
    ensures IsRegistered(g, b)
  {
    EquivalentMeaning(g.aliases, a, b);
  }

  /** A registered hash is looked up to its destination, whatever the link's identity says. */
  lemma RegisteredLookup(g: Setting, h: Hash, x: LinkId)
    requires Steady(g) && !Unresolved(h) && !Self(g, h) && IsRegistered(g, h)
    ensures Canonical(g, h, x) == Dest(g, h) && !Unresolved(Dest(g, h)) && Same(g, Dest(g, h), h)
  {
    hide Transitive;
    DestSame(g, h);
  }

  /** In an orderly registry a known link is established under a hash of the peer it is known for. */
  lemma EstablishedSound(g: Setting, s: Reg, x: LinkId, hash: Hash)
    requires Steady(g) && Orderly(g, s) && Known(g, s, x, hash) && !Unresolved(hash) && !Self(g, hash)
    ensures var e := EstablishedPeer(g, s, x, hash);
            e.reg == s && !Unresolved(e.peer) && Known(g, s, x, e.peer)
  {
    hide Canonical, IsActive, Same, IdentityPeer, Transitive, IsRegistered;
    var c := s.hashOf.vals[x];
    assert Coherent(g, x, c);
    if IsRegistered(g, c) {
      RegisteredSame(g, c, hash);
      RegisteredLookup(g, hash, x);
      SameSym(g, Dest(g, hash), hash);
      SameTrans(g, c, hash, Dest(g, hash));
    } else {
      AgreedSound(g, s, x, hash);
    }
  }

  lemma AgreedSound(g: Setting, s: Reg, x: LinkId, hash: Hash)
    requires Steady(g) && Known(g, s, x, hash) && !Unresolved(hash)
    requires Coherent(g, x, s.hashOf.vals[x]) && Agrees(g, x, s.hashOf.vals[x])
    ensures var e := EstablishedPeer(g, s, x, hash);
            e.reg == s && !Unresolved(e.peer) && Known(g, s, x, e.peer)
  {
    hide Canonical, IsActive, Same, IdentityPeer, Transitive, IsRegistered;
    var c := s.hashOf.vals[x];
    AgreesMove(g, x, c, hash);
    var given := Canonical(g, hash, x);
    CanonicalSound(g, hash, x);
    SameSym(g, given, hash);
    if given != "" {
      SameTrans(g, c, hash, given);
    } else if !Unresolved(IdentityPeer(g, x)) {
      SameSym(g, IdentityPeer(g, x), c);
    } else {
      CanonicalSound(g, c, x);
      var c1 := Canonical(g, c, x);
      CanonicalSound(g, c1, x);
      var c2 := Canonical(g, c1, x);
      SameSym(g, c1, c);
      SameSym(g, c2, c1);
      SameTrans(g, c, c1, c2);
    }
  }

  lemma RemoteIsIdentity(g: Setting, s: Reg, x: LinkId)
    requires Consistent(g.aliases) && !Unresolved(IdentityPeer(g, x))
    ensures RemotePeer(View(g, s), Now(g, s), x) == Dest(g, IdentityPeer(g, x)) != ""
  {
  }

  /** A registration under a peer that the link's identity disagrees with is refused. */
  lemma DisagreementRefused(g: Setting, u: Reg, x: LinkId, hash: Hash)
    requires Steady(g) && hash != "" && !Agrees(g, x, hash)
    ensures RegisterLink(g, u, x, hash) == u
  {
    hide Transitive, Same, RemotePeer, CachePeer;
    var i := IdentityPeer(g, x);
    RemoteIsIdentity(g, u, x);
    DestSame(g, i);
    DestSame(g, hash);
    if Same(g, Dest(g, i), Dest(g, hash)) {
      SameSym(g, Dest(g, i), i);
      SameTrans(g, i, Dest(g, i), Dest(g, hash));
      SameTrans(g, i, Dest(g, hash), hash);
    }
  }

  /** Registering a link under a peer that s knew it for keeps the registry evolved from s, and orderly. */
  lemma RegisterEvolves(g: Setting, s: Reg, u: Reg, x: LinkId, hash: Hash)
    requires Steady(g) && Orderly(g, s) && Orderly(g, u) && Evolved(g, s, u) && Known(g, s, x, hash) && !Unresolved(hash)
    ensures Evolved(g, s, RegisterLink(g, u, x, hash)) && Orderly(g, RegisterLink(g, u, x, hash))
  {
    hide Canonical, IsActive, Same, IdentityPeer, Transitive, RemotePeer, Agrees, Coherent, Unresolved, Dest;
    var peer := Dest(g, hash);
    var c := s.hashOf.vals[x];
    HashNamed(hash);
    DestSame(g, hash);
    DestSame(g, peer);
    SameSym(g, peer, hash);
    SameTrans(g, c, hash, peer);
    if !Agrees(g, x, hash) {
      DisagreementRefused(g, u, x, hash);
    } else if RegisterLink(g, u, x, hash) != u {
      AgreesMove(g, x, hash, peer);
      var key := Zoned(Dest(g, peer), TransportOf(g.env, x));
      var t := u.(byPeer := Remove(Put(u.byPeer, key, x), Plain(peer)));
      assert Known(g, s, x, key.peer);
      FiledEvolves(g, s, u, t, key, x);
      CacheSound(g, t, x, peer);
      var d := Canonical(g, peer, x);
      if CachePeer(g, t, x, peer) != t {
        SameSym(g, c, peer);
        SameTrans(g, d, peer, c);
        RecachedEvolves(g, s, t, x, d);
      }
    }
  }

  lemma HashNamed(h: Hash)
    requires !Unresolved(h)
    ensures h != ""
  {
  }

  lemma FiledEvolves(g: Setting, s: Reg, u: Reg, t: Reg, key: LinkKey, x: LinkId)
    requires Evolved(g, s, u) && Known(g, s, x, key.peer)
    requires t == u.(byPeer := t.byPeer)
    requires forall k :: k in t.byPeer.vals ==> (k in u.byPeer.vals && t.byPeer.vals[k] == u.byPeer.vals[k]) || (k == key && t.byPeer.vals[k] == x)
    ensures Evolved(g, s, t)
  {
    hide Same, IsActive, Known;
  }

  lemma RecachedEvolves(g: Setting, s: Reg, t: Reg, x: LinkId, d: Hash)
    requires Evolved(g, s, t) && Orderly(g, t) && x in s.hashOf.vals && Same(g, d, s.hashOf.vals[x]) && Coherent(g, x, d)
    ensures Evolved(g, s, t.(hashOf := Put(t.hashOf, x, d))) && Orderly(g, t.(hashOf := Put(t.hashOf, x, d)))
  {
    hide Same, IsActive, Known, Coherent;
  }

  lemma AdoptEvolves(g: Setting, s: Reg, u: Reg, x: LinkId, peer: Hash)
    requires Steady(g) && Orderly(g, s) && Orderly(g, u) && Evolved(g, s, u) && Known(g, s, x, peer) && !Unresolved(peer)
    ensures Evolved(g, s, Adopt(g, u, x, peer)) && Orderly(g, Adopt(g, u, x, peer))
  {
    hide Steady, Known, Coherent, Dest, RegisterLink, Same;
    RegisterEvolves(g, s, u, x, peer);
  }

  lemma OrderlySub(g: Setting, s: Reg, r: Reg)
    requires Orderly(g, s) && forall x :: x in r.hashOf.vals ==> x in s.hashOf.vals && r.hashOf.vals[x] == s.hashOf.vals[x]
    ensures Orderly(g, r)
  {
    hide Coherent;
  }

  lemma {:induction false} ConsolidateEvolves(g: Setting, s: Reg, hash: Hash, keep: Option<LinkId>, transport: Option<Transport>)
    requires Steady(g) && Orderly(g, s)
    ensures var r := Consolidate(g, s, hash, keep, transport); Evolved(g, s, r) && Orderly(g, r)
    decreases Open(s), 2, 0
  {
    hide Steady, Orderly, Evolved, Listed;
    CloseAllEvolves(g, s, Listed(g, s, hash), keep, transport);
  }

  lemma {:induction false} CloseAllEvolves(g: Setting, s: Reg, targets: seq<LinkId>, keep: Option<LinkId>, transport: Option<Transport>)
    requires Steady(g) && Orderly(g, s)
    ensures var r := CloseAll(g, s, targets, keep, transport); Evolved(g, s, r) && Orderly(g, r)
    decreases Open(s), 1, |targets|
  {
    hide Orderly, Evolved, Spare, Teardown, Transitive;
    EvolvedSelf(g, s);
    if targets != [] {
      var l := targets[0];
      var t := CloseOne(g, s, l, keep, transport);
      if Spare(g, l, keep, transport) && l in Open(s) {
        TeardownEvolves(g, s, l);
      }
      CloseAllEvolves(g, t, targets[1..], keep, transport);
      EvolvedTrans(g, s, t, CloseAll(g, t, targets[1..], keep, transport));
    }
  }

  lemma {:induction false} TeardownEvolves(g: Setting, s: Reg, l: LinkId)
    requires Steady(g) && Orderly(g, s) && l in Open(s)
    ensures var r := Teardown(g, s, l); Evolved(g, s, r) && Orderly(g, r)
    decreases Open(s), 0, 0
  {
    hide Evolved, LinkClosed, Transitive, Coherent;
    var t := s.(status := s.status[l := Closed]);
    CloseMarkEvolves(g, s, l);
    ClosedEvolves(g, t, l);
    EvolvedTrans(g, s, t, LinkClosed(g, t, l));
  }

  lemma {:induction false} ClosedEvolves(g: Setting, s: Reg, l: LinkId)
    requires Steady(g) && Orderly(g, s)
    ensures var r := LinkClosed(g, s, l); Evolved(g, s, r) && Orderly(g, r)
    decreases Open(s), 5, 0
  {
    hide Evolved, Dropped, Refile, AfterClose, Transitive, Orderly;
    var f := Dropped(g, s, l);
    DroppedEvolves(g, s, l);
    OrderlySub(g, s, f.reg);
    EvolvedSelf(g, f.reg);
    var t := f.reg;
    if !Unresolved(f.peer) {
      DroppedPeer(g, s, l);
      DroppedNotSelf(g, s, l);
      t := Refile(g, f.reg, l, Dest(g, f.peer));
      RefileEvolves(g, f.reg, l, Dest(g, f.peer));
    }
    EvolvedTrans(g, s, f.reg, t);
    AfterCloseEvolves(g, t, l, f.peer);
    OrderlySub(g, t, AfterClose(g, t, l, f.peer));
    EvolvedTrans(g, s, t, AfterClose(g, t, l, f.peer));
  }

  lemma DroppedPeer(g: Setting, s: Reg, l: LinkId)
    requires Consistent(g.aliases) && !Unresolved(Dropped(g, s, l).peer)
    ensures !Unresolved(Dest(g, Dropped(g, s, l).peer))
  {
    hide PeerForLink;
  }

  lemma LookupNotSelf(g: Setting, h: Hash, x: LinkId)
    requires Steady(g)
    ensures Canonical(g, h, x) != "" ==> !Self(g, Canonical(g, h, x))
    ensures !Unresolved(IdentityPeer(g, x)) ==> !Self(g, IdentityPeer(g, x))
  {
    hide Transitive, Same;
  }

  /** The peer a closing link is found to belong to is never ourselves. */
  lemma DroppedNotSelf(g: Setting, s: Reg, l: LinkId)
    requires Steady(g)
    ensures !Self(g, Dest(g, Dropped(g, s, l).peer))
  {
    hide Transitive, Same, Canonical, Resolve, IdentityPeer, CachePeer;
    var cached := if l in s.hashOf.vals then s.hashOf.vals[l] else "";
    LookupNotSelf(g, cached, l);
    LookupNotSelf(g, Resolve(g, l, ""), l);
    assert !Self(g, PeerForLink(g, s, l, "").peer);
  }

  lemma {:induction false} RefileEvolves(g: Setting, s: Reg, l: LinkId, peer: Hash)
    requires Steady(g) && Orderly(g, s) && !Unresolved(peer) && !Self(g, peer)
    ensures var r := Refile(g, s, l, peer); Evolved(g, s, r) && Orderly(g, r)
    decreases Open(s), 4, 0
  {
    hide Evolved, Others, Notify, Unlink, Coherent, Transitive, Unresolved, IsActive, Same;
    var others := Others(g, s, l, peer);
    UnlinkEvolves(g, s, peer);
    if others != [] {
      var x := others[0];
      OthersAreKnown(g, s, l, peer, x);
      var t := s.(byPeer := Put(s.byPeer, Plain(peer), x));
      PutEvolves(g, s, x, peer);
      if s.activeLink == Some(l) && !s.handoff {
        NotifyEvolves(g, t, x, peer, true);
        EvolvedTrans(g, s, t, Notify(g, t, x, peer, true));
      }
    }
  }

  lemma {:induction false} NotifyEvolves(g: Setting, s: Reg, l: LinkId, hash: Hash, promote: bool)
    requires Steady(g) && Orderly(g, s) && Known(g, s, l, hash) && !Unresolved(hash) && !Self(g, hash)
    ensures var r := Notify(g, s, l, hash, promote); Evolved(g, s, r) && Orderly(g, r)
    decreases Open(s), 3, 0
  {
    hide Evolved, EstablishedPeer, RegisterLink, Consolidate, Adopt, Orderly, Known, Transitive;
    EvolvedSelf(g, s);
    EstablishedSound(g, s, l, hash);
    var peer := EstablishedPeer(g, s, l, hash).peer;
    if !IsHubPeer(peer) {
      var t := RegisterLink(g, s, l, peer);
      RegisterEvolves(g, s, s, l, peer);
      if promote {
        var u := Consolidate(g, t, peer, Some(l), None);
        ConsolidateEvolves(g, t, peer, Some(l), None);
        EvolvedTrans(g, s, t, u);
        AdoptEvolves(g, s, u, l, peer);
      }
    }
  }

  // ----- the exit form -----

  /** What makes a consolidation thorough: equivalence is transitive, and either nothing can be promoted, or every link
      cached under a hash that is not registered has an identity that agrees with it. */
  ghost predicate Thorough(g: Setting, s: Reg, hash: Hash, keep: Option<LinkId>, transport: Option<Transport>) {
    || (Transitive(g.aliases) && Quiet(s, Condemned(g, s, hash, keep, transport)))
    || (Steady(g) && Orderly(g, s))
  }

  /** On return no link listed for the peer is an open spare: beside keep none is left. */
  lemma NoSpareLeft(g: Setting, s: Reg, hash: Hash, keep: Option<LinkId>, transport: Option<Transport>, x: LinkId)
    requires Thorough(g, s, hash, keep, transport)
    requires var r := Consolidate(g, s, hash, keep, transport); x in Listed(g, r, hash) && Spare(g, x, keep, transport)
    ensures x !in Open(Consolidate(g, s, hash, keep, transport))
  {
    hide Listed, Spare, Open, Evolved, Orderly, Transitive, CloseAll;
    var r := Consolidate(g, s, hash, keep, transport);
    if Steady(g) && Orderly(g, s) {
      ConsolidateEvolves(g, s, hash, keep, transport);
    } else {
      CloseAllQuietEvolves(g, s, Listed(g, s, hash), keep, transport);
    }
    EvolvedLists(g, s, r, hash, x);
    ConsolidateCloses(g, s, hash, keep, transport);
    assert x in Condemned(g, s, hash, keep, transport);
  }
}
