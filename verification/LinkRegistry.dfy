/** The link registry, changed in place: closing a link runs a callback that may promote another link and consolidate
    again. Each method does what LinkSteps says of it; LinkSafety and LinkListing say what that amounts to. */
module LinkRegistry {
  import opened Collections
  import opened Aliases
  import opened LinkChoice
  import opened LinkSteps
  import opened LinkSafety
  import opened LinkListing
  import P = PendingFiles

  class Registry {
    const setting: Setting
    var status: map<LinkId, Status>
    var links: seq<LinkId>
    var hashOf: Dict<LinkId, Hash>
    var byPeer: Dict<LinkKey, LinkId>
    var activeLink: Option<LinkId>
    var activePeer: Hash
    var sessionPeer: Hash
    var sessionTransport: Option<Transport>
    var sendLink: Option<LinkId>
    var handoff: bool
    var files: P.Queues
    ghost var arrived: seq<P.Announcement>
    ghost var gone: seq<P.Announcement>

    constructor (g: Setting, s: Reg)
      ensures setting == g && State() == s
    {
      setting := g;
      status, links, hashOf, byPeer := s.status, s.links, s.hashOf, s.byPeer;
      activeLink, activePeer, sessionPeer, sessionTransport := s.activeLink, s.activePeer, s.sessionPeer, s.sessionTransport;
      sendLink, handoff, files := s.sendLink, s.handoff, s.files.pending;
      arrived, gone := s.files.arrived, s.files.gone;
    }

    ghost function State(): Reg
      reads this
    {
      Reg(status, links, hashOf, byPeer, activeLink, activePeer, sessionPeer, sessionTransport, sendLink, handoff,
          P.PState(files, arrived, gone))
    }

    function Tables(): Table
      reads this
    {
      Table(setting.aliases, links, hashOf, byPeer, activePeer, sessionPeer, sessionTransport)
    }

    function Environment(): Env
      reads this
    {
      setting.env.(status := status)
    }

    // ----- table updates -----

    /** _cache_link_peer. */
    method CacheLinkPeer(l: LinkId, h: Hash)
      modifies `hashOf
      ensures State() == CachePeer(setting, old(State()), l, h)
    {
      hide Canonical, Self;
      if Unresolved(h) {
        return;
      }
      var c := Canonical(setting, h, l);
      if c != "" && !Self(setting, c) {
        hashOf := Put(hashOf, l, c);
      }
    }

    /** _peer_for_link. */
    method FindPeer(l: LinkId, fallback: Hash) returns (peer: Hash)
      modifies `hashOf
      ensures Answer(peer, State()) == PeerForLink(setting, old(State()), l, fallback)
      ensures forall x :: x != l && x in hashOf.vals ==> x in old(hashOf).vals && hashOf.vals[x] == old(hashOf).vals[x]
    {
      hide Canonical, Self, IdentityPeer, Resolve, CachePeer;
      PeerTouchesOne(setting, State(), l, fallback);
      var ident := IdentityPeer(setting, l);
      if !Unresolved(ident) {
        CacheLinkPeer(l, ident);
        return ident;
      }
      var cached := if l in hashOf.vals then hashOf.vals[l] else "";
      if cached != "" && !Self(setting, cached) && Canonical(setting, cached, l) != "" {
        return Canonical(setting, cached, l);
      }
      var resolved := Resolve(setting, l, fallback);
      if !Unresolved(resolved) && !Self(setting, resolved) && Canonical(setting, resolved, l) != "" {
        CacheLinkPeer(l, Canonical(setting, resolved, l));
        return Canonical(setting, resolved, l);
      }
      if fallback != "" && !Self(setting, fallback) && Canonical(setting, fallback, l) != "" {
        CacheLinkPeer(l, Canonical(setting, fallback, l));
        return Canonical(setting, fallback, l);
      }
      return UNKNOWN;
    }

    /** _register_peer_link: refused when the link's remote party is known to be someone else. */
    method RegisterPeerLink(l: LinkId, hash: Hash)
      modifies `byPeer, `hashOf
      ensures State() == RegisterLink(setting, old(State()), l, hash)
    {
      hide Same, RemotePeer, Dest, CachePeer;
      var peer := Dest(setting, hash);
      if Unresolved(peer) {
        return;
      }
      var remote := RemotePeer(Tables(), Environment(), l);
      if remote != "" && !Same(setting, remote, peer) {
        return;
      }
      byPeer := Remove(Put(byPeer, Zoned(Dest(setting, peer), TransportOf(setting.env, l)), l), Plain(peer));
      CacheLinkPeer(l, peer);
    }

    /** _unlink_peer without a transport: no key of the peer stays. */
    method UnlinkPeer(hash: Hash)
      modifies `byPeer
      ensures State() == Unlink(setting, old(State()), hash)
      ensures Dest(setting, hash) != "" ==>
                forall k :: k in byPeer.vals <==>
                  k in old(byPeer).vals && k != Plain(Dest(setting, hash)) && !Same(setting, k.peer, Dest(setting, hash))
    {
      var peer := Dest(setting, hash);
      if peer == "" {
        return;
      }
      ghost var before := byPeer;
      byPeer := Keep(Remove(byPeer, Plain(peer)), (k: LinkKey, l) => !Same(setting, k.peer, peer));
      KeepSame(Remove(before, Plain(peer)), (k: LinkKey, l) => !Same(setting, k.peer, peer),
               (k: LinkKey, l) => !Same(setting, k.peer, peer));
    }

    // ----- the re-entrant part -----

    /** _consolidate_peer_links. Every spare link listed at the call is closed on return, and where it is thorough no
        spare one is listed for the peer and open; nothing reopens, and announced files are conserved. */
    method ConsolidateLinks(hash: Hash, keep: Option<LinkId>, transport: Option<Transport>)
      modifies this
      ensures State() == Consolidate(setting, old(State()), hash, keep, transport)
      ensures Winding(old(State()), State(), {})
      ensures Open(State()) !! Condemned(setting, old(State()), hash, keep, transport)
      ensures old(Thorough(setting, State(), hash, keep, transport)) ==>
                forall x :: x in Listed(setting, State(), hash) && Spare(setting, x, keep, transport) ==> x !in Open(State())
      decreases Open(State()), 2, 0
    {
      hide LinksFor;
      ghost var before := State();
      var targets := LinksFor(Tables(), Environment(), hash);
      assert targets == Listed(setting, before, hash);
      hide Listed, Spare, Winding, Thorough, Teardown, Condemned;
      ConsolidateWinds(setting, before, hash, keep, transport);
      ConsolidateCloses(setting, before, hash, keep, transport);
      ThoroughExit(setting, before, hash, keep, transport);
      for i := 0 to |targets|
        invariant Open(State()) <= Open(before)
        invariant CloseAll(setting, State(), targets[i..], keep, transport) == CloseAll(setting, before, targets, keep, transport)
      {
        var l := targets[i];
        assert targets[i..][0] == l && targets[i..][1..] == targets[i + 1..];
        if Spare(setting, l, keep, transport) && l in status && status[l] != Closed {
          TeardownLink(l);
        }
      }
      assert targets[|targets|..] == [];
    }

    method TeardownLink(l: LinkId)
      requires l in Open(State())
      modifies this
      ensures State() == Teardown(setting, old(State()), l)
      ensures Open(State()) <= Open(old(State())) - {l} && Gone(State(), l)
      decreases Open(State()), 0, 0
    {
      hide LinkClosed, Gone;
      TeardownWinds(setting, State(), l);
      ghost var before := State();
      status := status[l := Closed];
      assert State() == before.(status := before.status[l := Closed]);
      assert Open(State()) == Open(before) - {l};
      OnLinkClosed(l);
    }

    /** The close callback: the link is in no table any more and, outside a handoff, is neither active nor send link. */
    method OnLinkClosed(l: LinkId)
      modifies this
      ensures State() == LinkClosed(setting, old(State()), l)
      ensures Winding(old(State()), State(), {}) && Gone(State(), l)
      ensures !handoff ==> activeLink != Some(l) && sendLink != Some(l)
      ensures if handoff then State().files == old(State()).files
              else FilesSettled(setting, Refiled(setting, old(State()), l), l, Dropped(setting, old(State()), l).peer, State().files)
      decreases Open(State()), 5, 0
    {
      hide Winding, Gone, PeerForLink, Dest, Refile, AfterClose, FilesSettled;
      ghost var before := State();
      ClosedWinds(setting, before, l);
      ClosedSettles(setting, before, l);
      HandoffKept(setting, before, l);
      LetGo(setting, before, l);
      var found := FindPeer(l, "");
      var remote := Dest(setting, found);
      links := Filter(links, (x: LinkId) => x != l);
      hashOf := Remove(hashOf, l);
      assert Answer(remote, State()) == Dropped(setting, before, l);
      if !Unresolved(remote) {
        RefilePeer(l, Dest(setting, remote));
      }
      FinishClose(l, remote);
    }

    /** The callback once the tables are settled: pending files, then the session's next link, then the send link. */
    method FinishClose(l: LinkId, remote: Hash)
      modifies `files, `gone, `activeLink, `activePeer, `sessionPeer, `sendLink
      ensures State() == AfterClose(setting, old(State()), l, remote)
    {
      hide SettleFiles, Promote;
      FilesUnchanged(setting, State(), l, remote);
      if !handoff {
        SettlePending(l, remote);
      }
      if activeLink == Some(l) && !handoff {
        PromoteSession(l);
      }
      if sendLink == Some(l) {
        sendLink := activeLink;
      }
    }

    /** Announced files move to another link of the session's peer during a transfer, and are dropped otherwise. */
    method SettlePending(l: LinkId, remote: Hash)
      requires !handoff
      modifies `files, `gone
      ensures State() == SettleFiles(setting, old(State()), l, remote)
      ensures FilesSettled(setting, old(State()), l, remote, State().files)
    {
      hide LinkForPeer, Dest, P.Next, FilesSettled;
      SettleMeaning(setting, State(), l, remote);
      var peer := Dest(setting, if sessionPeer != "" then sessionPeer else if activePeer != "" then activePeer else remote);
      var other := LinkForPeer(Tables(), Environment(), peer, None);
      var busy := setting.sending || (exists x :: x in files.vals && files.vals[x] != [])
                  || (exists x :: x in links && x in setting.incoming);
      assert busy == TransferUnderWay(setting, State());
      hide TransferUnderWay;
      if busy && other.Some? && other != Some(l) {
        assert FilesStep(setting, State(), l, remote) == P.Migrate(l, other.value);
        hide FilesStep;
        MigratePending(l, other.value);
      } else {
        assert FilesStep(setting, State(), l, remote) == P.Flush(l);
        hide FilesStep;
        FlushPending(l);
      }
    }

    method MigratePending(from: LinkId, into: LinkId)
      modifies `files
      ensures State() == old(State()).(files := P.Next(old(State()).files, P.Migrate(from, into)))
    {
      if from == into {
        return;
      }
      var q := P.QueueOf(files, from);
      files := Remove(files, from);
      if q != [] {
        files := Put(files, into, P.QueueOf(files, into) + q);
      }
    }

    method FlushPending(l: LinkId)
      modifies `files, `gone
      ensures State() == old(State()).(files := P.Next(old(State()).files, P.Flush(l)))
    {
      gone := gone + P.QueueOf(files, l);
      files := Remove(files, l);
    }

    /** After losing a link: another live link of the peer takes over its registration, else none of its keys stays. */
    method RefilePeer(l: LinkId, peer: Hash)
      modifies this
      ensures State() == Refile(setting, old(State()), l, peer)
      ensures Open(State()) <= Open(old(State()))
      decreases Open(State()), 4, 0
    {
      hide Notify, Dest, ActiveFor;
      var others := Filter(ActiveFor(Tables(), Environment(), peer), (x: LinkId) => x != l);
      assert others == Others(setting, State(), l, peer);
      hide Others;
      if others == [] {
        UnlinkPeer(peer);
      } else {
        byPeer := Put(byPeer, Plain(peer), others[0]);
        if activeLink == Some(l) && !handoff {
          NotifyEstablished(others[0], peer, true);
        }
      }
    }

    /** The session's next link once its active link is gone. */
    method PromoteSession(l: LinkId)
      modifies `activeLink, `activePeer, `sessionPeer, `sendLink
      ensures State() == Promote(setting, old(State()), l)
      ensures activeLink != Some(l)
      ensures if activeLink.None? then sendLink == old(sendLink) else sendLink == activeLink
      ensures activeLink.Some? ==> !UserDisconnected(setting, activePeer) && activePeer == Dest(setting, sessionPeer)
    {
      hide Dest, LinkForPeer, UserDisconnected, Promote, Demoted, NextSession;
      ghost var before := State();
      PromoteMeaning(setting, before, l);
      PromoteIs(setting, before, l);
      DemoteSession();
      FollowSession(l);
    }

    /** Nothing is active any more; the session stays with the lost peer unless the user disconnected it. */
    method DemoteSession()
      modifies `activeLink, `activePeer, `sessionPeer
      ensures State() == Demoted(setting, old(State()))
    {
      hide Dest, UserDisconnected;
      var lost := Dest(setting, activePeer);
      if activePeer != "" && lost != "" && !UserDisconnected(setting, lost) {
        sessionPeer := activePeer;
      }
      activeLink, activePeer := None, "";
    }

    /** A link filed for the session's peer becomes active. */
    method FollowSession(l: LinkId)
      modifies `activeLink, `activePeer, `sendLink
      ensures State() == NextSession(setting, old(State()), l)
    {
      hide Dest, LinkForPeer, UserDisconnected;
      var session := Dest(setting, sessionPeer);
      if session != "" && !UserDisconnected(setting, session) {
        var next := LinkForPeer(Tables(), Environment(), session, None);
        if next.Some? && next != Some(l) {
          activeLink, activePeer, sendLink := next, session, next;
        }
      }
    }

    /** The peer an established link is registered under. */
    method FindEstablishedPeer(l: LinkId, hash: Hash) returns (peer: Hash)
      modifies `hashOf
      ensures Answer(peer, State()) == EstablishedPeer(setting, old(State()), l, hash)
    {
      hide Canonical, IdentityPeer, Dest, PeerForLink;
      peer := Canonical(setting, hash, l);
      if Unresolved(peer) {
        peer := IdentityPeer(setting, l);
        if Unresolved(peer) {
          var found := FindPeer(l, hash);
          peer := Canonical(setting, found, l);
          var session := Dest(setting, sessionPeer);
          if Unresolved(peer) && session != "" && !IsHubPeer(session) {
            peer := session;
          }
        }
      }
    }

    /** _notify_link_established. */
    method NotifyEstablished(l: LinkId, hash: Hash, promote: bool)
      modifies this
      ensures State() == Notify(setting, old(State()), l, hash, promote)
      ensures Winding(old(State()), State(), {l})
      ensures Open(State()) <= Open(old(State()))
      decreases Open(State()), 3, 0
    {
      hide Winding, EstablishedPeer, RegisterLink, Consolidate, Adopt, Listed;
      NotifyWinds(setting, State(), l, hash, promote);
      var peer := FindEstablishedPeer(l, hash);
      if IsHubPeer(peer) || Unresolved(peer) {
        return;
      }
      RegisterPeerLink(l, peer);
      if promote {
        ConsolidateLinks(peer, Some(l), None);
        AdoptSession(l, peer);
      }
    }

    /** Makes the link the active session's unless another session runs beside it. */
    method AdoptSession(l: LinkId, peer: Hash)
      modifies `activeLink, `activePeer, `sessionPeer, `sendLink, `byPeer, `hashOf
      ensures State() == Adopt(setting, old(State()), l, peer)
      ensures var session := Dest(setting, old(sessionPeer));
              if !setting.parallel || session == "" || Same(setting, peer, session) || old(activeLink).None? then
                activeLink == sendLink == Some(l) && activePeer == sessionPeer == peer
              else
                && activeLink == old(activeLink) && sendLink == old(sendLink)
                && activePeer == old(activePeer) && sessionPeer == old(sessionPeer)
    {
      hide Dest, Same, RegisterLink;
      var session := Dest(setting, sessionPeer);
      if !setting.parallel || session == "" || Same(setting, peer, session) || activeLink.None? {
        activeLink, activePeer, sessionPeer, sendLink := Some(l), peer, peer, Some(l);
      } else {
        RegisterPeerLink(l, peer);
      }
    }
  }

  lemma FilesUnchanged(g: Setting, s: Reg, l: LinkId, remote: Hash)
    ensures s.handoff ==> SettleFiles(g, s, l, remote) == s
  {
  }

  lemma LetGo(g: Setting, s: Reg, l: LinkId)
    ensures !s.handoff ==> LinkClosed(g, s, l).activeLink != Some(l) && LinkClosed(g, s, l).sendLink != Some(l)
  {
    hide LinkClosed;
    if !s.handoff {
      ClosedLetsGo(g, s, l);
    }
  }

  lemma ThoroughExit(g: Setting, s: Reg, hash: Hash, keep: Option<LinkId>, transport: Option<Transport>)
    ensures var r := Consolidate(g, s, hash, keep, transport);
            Thorough(g, s, hash, keep, transport) ==>
              forall x :: x in Listed(g, r, hash) && Spare(g, x, keep, transport) ==> x !in Open(r)
  {
    hide Listed, Spare, Open, Thorough, Consolidate;
    var r := Consolidate(g, s, hash, keep, transport);
    forall x | Thorough(g, s, hash, keep, transport) && x in Listed(g, r, hash) && Spare(g, x, keep, transport)
      ensures x !in Open(r)
    {
      NoSpareLeft(g, s, hash, keep, transport, x);
    }
  }

  lemma PromoteIs(g: Setting, s: Reg, l: LinkId)
    ensures Promote(g, s, l) == NextSession(g, Demoted(g, s), l)
  {
    hide Demoted, NextSession;
  }

  lemma HandoffKept(g: Setting, s: Reg, l: LinkId)
    ensures LinkClosed(g, s, l).handoff == s.handoff
  {
    hide LinkClosed;
    ClosedWinds(g, s, l);
  }
}
