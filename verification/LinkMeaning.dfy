/** What the registry's small steps come to, said of the tables: whose link it is, where it is filed, who the session
    follows and which link sends. */
module LinkMeaning {
  import opened Collections
  import opened Aliases
  import opened LinkChoice
  import opened LinkSteps
  import opened LinkSafety
  import P = PendingFiles

  // ----- whose link -----

  /** h names somebody else. */
  predicate Foreign(g: Setting, h: Hash) {
    h != "" && h != UNKNOWN && h !in g.env.selfHashes
  }

  /** The identity the link was identified with, if it is somebody else's. */
  predicate Identified(g: Setting, l: LinkId) {
    Foreign(g, Info(g.env, l).identityDest)
  }

  /** Connecting to a hash: a destination with a registered identity is taken as it is, else the identity recalled for the
      hash decides, else the link's own, else any full-length hash; anything else is no destination. Our own hashes and
      unknown ones fall back to the link's identity alone. */
  lemma CanonicalSources(g: Setting, h: Hash, l: LinkId)
    ensures var c, dest := Canonical(g, h, l), DestFor(g.aliases, h);
            var own := if Identified(g, l) then Info(g.env, l).identityDest else "";
            var recalled := if h in g.recall && g.recall[h] !in g.env.selfHashes then g.recall[h] else "";
            if !Foreign(g, h) then c == own
            else
              && (dest in g.aliases.identOf ==> c == dest)
              && (dest !in g.aliases.identOf && recalled != "" ==> c == recalled)
              && (dest !in g.aliases.identOf && recalled == "" && own != "" ==> c == own)
              && (dest !in g.aliases.identOf && recalled == "" && own == "" ==> c == if |dest| == 32 then dest else "")
  {
  }

  /** The remote party by the resolver, else by its identity, else by the fallback. */
  lemma ResolveSources(g: Setting, l: LinkId, fallback: Hash)
    ensures var r := Resolve(g, l, fallback);
            var answer := if l in g.resolver then g.resolver[l] else "";
            var ident := Info(g.env, l).identityDest;
            && (answer != "" ==> r == DestFor(g.aliases, answer))
            && (answer == "" && ident != "" ==> r == DestFor(g.aliases, ident))
            && (answer == ident == "" && fallback != "" ==> r == DestFor(g.aliases, fallback))
            && (answer == ident == fallback == "" ==> r == UNKNOWN)
  {
  }

  /** A hash found for a link counts when it is not our own and leads to a destination. */
  predicate Leads(g: Setting, h: Hash, l: LinkId) {
    h != "" && h !in g.env.selfHashes && Canonical(g, h, l) != ""
  }

  /** Whose link it is: its identity, else the cached hash, else the resolver's answer, else the fallback; nothing else of
      the registry changes but the cache entry of this link, which then names the answer's destination. */
  lemma PeerSources(g: Setting, s: Reg, l: LinkId, fallback: Hash)
    ensures var r := PeerForLink(g, s, l, fallback);
            var cached := if l in s.hashOf.vals then s.hashOf.vals[l] else "";
            var resolved := Resolve(g, l, fallback);
            && (Identified(g, l) ==> r == Answer(Info(g.env, l).identityDest, CachePeer(g, s, l, Info(g.env, l).identityDest)))
            && (!Identified(g, l) && Leads(g, cached, l) ==> r == Answer(Canonical(g, cached, l), s))
            && (!Identified(g, l) && !Leads(g, cached, l) && resolved != UNKNOWN && Leads(g, resolved, l) ==>
                  r == Answer(Canonical(g, resolved, l), CachePeer(g, s, l, Canonical(g, resolved, l))))
            && (!Identified(g, l) && !Leads(g, cached, l) && !(resolved != UNKNOWN && Leads(g, resolved, l)) ==>
                  if Leads(g, fallback, l) then r == Answer(Canonical(g, fallback, l), CachePeer(g, s, l, Canonical(g, fallback, l)))
                  else r == Answer(UNKNOWN, s))
  {
    hide Canonical, CachePeer, Resolve;
  }

  /** The cache takes the destination a hash leads to, unless it is unknown or our own; other links keep their entries. */
  lemma CacheIff(g: Setting, s: Reg, l: LinkId, h: Hash)
    ensures var r, c := CachePeer(g, s, l, h), Canonical(g, h, l);
            && r == s.(hashOf := r.hashOf)
            && r.hashOf.vals == if Unresolved(h) || c == "" || c in g.env.selfHashes then s.hashOf.vals else s.hashOf.vals[l := c]
  {
    hide Canonical;
  }

  /** A link is filed under its peer and transport alone, unless it is known to be somebody else's or the peer is unknown. */
  lemma RegisterIff(g: Setting, s: Reg, l: LinkId, hash: Hash)
    ensures var r, peer := RegisterLink(g, s, l, hash), DestFor(g.aliases, hash);
            var remote := RemotePeer(View(g, s), Now(g, s), l);
            if peer == "" || peer == UNKNOWN || (remote != "" && !Equivalent(g.aliases, remote, peer)) then r == s
            else
              var key := Zoned(DestFor(g.aliases, peer), if Info(g.env, l).family == Serial then OverSerial else OverLan);
              && r.byPeer.vals == s.byPeer.vals[key := l] - {Plain(peer)}
              && r.hashOf == CachePeer(g, s, l, peer).hashOf
              && r == s.(byPeer := r.byPeer, hashOf := r.hashOf)
  {
    hide Canonical, RemotePeer, Equivalent;
  }

  /** The peer an established link is notified for: the given hash's destination, else its identity, else whose link it
      is, else the session's peer unless that is the hub. */
  lemma EstablishedSources(g: Setting, s: Reg, l: LinkId, hash: Hash)
    ensures var r, given := EstablishedPeer(g, s, l, hash), Canonical(g, hash, l);
            var found := PeerForLink(g, s, l, hash);
            var peer, session := Canonical(g, found.peer, l), DestFor(g.aliases, s.sessionPeer);
            && (given != "" && given != UNKNOWN ==> r == Answer(given, s))
            && (given == "" || given == UNKNOWN ==>
                  if Identified(g, l) then r == Answer(Info(g.env, l).identityDest, s)
                  else
                    && r.reg == found.reg
                    && r.peer == if (peer == "" || peer == UNKNOWN) && session != "" && !IsHubPeer(session) then session else peer)
  {
    hide Canonical, PeerForLink, DestFor;
  }

  // ----- which links are spare -----

  /** Of the links listed for a peer all but the kept one are spare; with parallel sessions only those in the kept link's
      family, and when a transport is named only those on it. */
  lemma SpareIff(g: Setting, l: LinkId, keep: Option<LinkId>, transport: Option<Transport>)
    ensures var fam := Info(g.env, l).family;
            var keptFam := if keep.Some? then Info(g.env, keep.value).family else NoFamily;
            Spare(g, l, keep, transport) <==>
              && keep != Some(l)
              && (g.parallel && keptFam != NoFamily ==> fam == keptFam)
              && (transport == Some(OverSerial) ==> fam == Serial)
              && (transport == Some(OverLan) ==> fam != Serial)
  {
  }

  // ----- the session -----

  /** The user disconnected this peer: some disconnected hash is equivalent to its destination. */
  predicate Refused(g: Setting, peer: Hash) {
    exists h :: h in g.disconnected && Equivalent(g.aliases, DestFor(g.aliases, peer), h)
  }

  lemma RefusedIff(g: Setting, peer: Hash)
    ensures UserDisconnected(g, peer) <==> Refused(g, peer)
  {
    hide Equivalent, DestFor;
    assert forall h :: !Equivalent(g.aliases, "", h) by {
      forall h
        ensures !Equivalent(g.aliases, "", h)
      {
        EmptyAlone(g.aliases, h);
      }
    }
  }

  lemma EmptyAlone(m: AliasMap, h: Hash)
    ensures !Equivalent(m, "", h)
  {
  }

  /** Losing the active link: the session stays with the peer lost unless the user disconnected it, and follows its peer to
      another link filed for it, if there is one and the user did not disconnect that peer either. */
  lemma PromoteIff(g: Setting, s: Reg, l: LinkId)
    ensures var r := Promote(g, s, l);
            var lost := DestFor(g.aliases, s.activePeer);
            var kept := if s.activePeer != "" && lost != "" && !Refused(g, lost) then s.activePeer else s.sessionPeer;
            var session := DestFor(g.aliases, kept);
            var idle := s.(activeLink := None, activePeer := "", sessionPeer := kept);
            var next := LinkForPeer(View(g, idle), g.env.(status := s.status), session, None);
            if session != "" && !Refused(g, session) && next.Some? && next.value != l
            then r == idle.(activeLink := next, activePeer := session, sendLink := next)
            else r == idle
  {
    hide LinkForPeer, UserDisconnected, Refused, DestFor;
    RefusedIff(g, DestFor(g.aliases, s.activePeer));
    RefusedIff(g, DestFor(g.aliases, Demoted(g, s).sessionPeer));
  }

  /** A closing link that was the active one hands its peer's registration to another live link of the peer, which is then
      notified about; without parallel sessions the session has moved to it before the callback looks for a successor. */
  lemma RefileMoves(g: Setting, s: Reg, l: LinkId, peer: Hash)
    requires s.activeLink == Some(l) && !s.handoff && Others(g, s, l, peer) != []
    ensures var x := Others(g, s, l, peer)[0];
            var t := s.(byPeer := Put(s.byPeer, Plain(peer), x));
            var r, p := Refile(g, s, l, peer), EstablishedPeer(g, t, x, peer).peer;
            && r == Notify(g, t, x, peer, true)
            && (!g.parallel && p != "" && p != UNKNOWN && p != HUB_GROUP_PEER ==>
                  r.activeLink == r.sendLink == Some(x) && r.activePeer == r.sessionPeer == p)
  {
    hide Others, EstablishedPeer, Notify;
    var x := Others(g, s, l, peer)[0];
    var t := s.(byPeer := Put(s.byPeer, Plain(peer), x));
    var p := EstablishedPeer(g, t, x, peer).peer;
    if !g.parallel && !Unresolved(p) && !IsHubPeer(p) {
      NotifyAdopts(g, t, x, peer);
    }
  }

  /** A notification about a link of an unknown peer or the group only looks; without promotion it only files the link; with
      it the peer's other links are closed before the link becomes the session's. */
  lemma NotifyIs(g: Setting, s: Reg, l: LinkId, hash: Hash, promote: bool)
    ensures var r, found := Notify(g, s, l, hash, promote), EstablishedPeer(g, s, l, hash);
            var filed := RegisterLink(g, found.reg, l, found.peer);
            if found.peer in {"", UNKNOWN, HUB_GROUP_PEER} then r == found.reg
            else if !promote then r == filed
            else
              && r == Adopt(g, Consolidate(g, filed, found.peer, Some(l), None), l, found.peer)
              && forall x :: x in Listed(g, filed, found.peer) && Spare(g, x, Some(l), None) ==> x !in Open(r)
  {
    hide EstablishedPeer, RegisterLink, Adopt, Consolidate, Listed, Spare;
    var found := EstablishedPeer(g, s, l, hash);
    if promote && found.peer !in {"", UNKNOWN, HUB_GROUP_PEER} {
      ConsolidateCloses(g, RegisterLink(g, found.reg, l, found.peer), found.peer, Some(l), None);
    }
  }

  /** After the close callback's last lines the send link is another one only if it was the closed link or the session has
      moved to a new link; then it is the active link. */
  lemma SendLinkAfterClose(g: Setting, s: Reg, l: LinkId, remote: Hash)
    ensures var r := AfterClose(g, s, l, remote);
            var moved := s.activeLink == Some(l) && !s.handoff && r.activeLink.Some?;
            && (s.sendLink == Some(l) || moved ==> r.sendLink == r.activeLink)
            && (s.sendLink != Some(l) && !moved ==> r.sendLink == s.sendLink)
            && (s.activeLink != Some(l) || s.handoff ==>
                  && r.activeLink == s.activeLink && r.activePeer == s.activePeer && r.sessionPeer == s.sessionPeer)
            && r.links == s.links && r.hashOf == s.hashOf && r.byPeer == s.byPeer
  {
    hide LinkForPeer, UserDisconnected, FilesStep, Dest, P.Next;
  }

  /** A notified link becomes the session's, active and sending, unless with parallel sessions another peer's session is
      running; then it is only filed. */
  lemma AdoptIff(g: Setting, s: Reg, l: LinkId, peer: Hash)
    ensures var r, session := Adopt(g, s, l, peer), DestFor(g.aliases, s.sessionPeer);
            if g.parallel && session != "" && !Equivalent(g.aliases, peer, session) && s.activeLink.Some?
            then r == RegisterLink(g, s, l, peer)
            else r == s.(activeLink := Some(l), activePeer := peer, sessionPeer := peer, sendLink := Some(l))
  {
    hide RegisterLink, Equivalent, DestFor;
  }
}
