/** What the link registry keeps through its re-entrant callbacks. */
module LinkSafety {
  import opened Collections
  import opened Aliases
  import opened LinkChoice
  import opened LinkSteps
  import P = PendingFiles

  // ----- what always holds -----

  /** Links only close, tables only lose links (the cache may gain those of extra), announced files are conserved. */
  ghost predicate Winding(s: Reg, r: Reg, extra: set<LinkId>) {
    && r.handoff == s.handoff
    && (forall l :: l in r.status ==> l in s.status && (r.status[l] == s.status[l] || r.status[l] == Closed))
    && (forall l :: l in r.links ==> l in s.links)
    && (forall l :: l in r.hashOf.vals ==> l in s.hashOf.vals || l in extra)
    && (P.Conserved(s.files) ==> P.Conserved(r.files))
  }

  predicate Gone(s: Reg, l: LinkId) {
    l !in s.links && l !in s.hashOf.vals
  }

  lemma WindingTrans(s: Reg, t: Reg, r: Reg, a: set<LinkId>, b: set<LinkId>)
    requires Winding(s, t, a) && Winding(t, r, b)
    ensures Winding(s, r, a + b)
    ensures forall l :: Gone(t, l) && l !in b ==> Gone(r, l)
  {
    hide P.Conserved;
  }

  lemma WindingChain(s: Reg, t: Reg, r: Reg)
    requires Winding(s, t, {}) && Winding(t, r, {})
    ensures Winding(s, r, {})
    ensures forall l :: Gone(t, l) ==> Gone(r, l)
  {
    WindingTrans(s, t, r, {}, {});
    hide P.Conserved;
  }

  lemma WindingWider(s: Reg, r: Reg, a: set<LinkId>)
    requires Winding(s, r, a) && forall l :: l in a ==> l in s.hashOf.vals
    ensures Winding(s, r, {})
  {
    hide P.Conserved;
  }

  lemma PeerWinds(g: Setting, s: Reg, l: LinkId, fallback: Hash)
    ensures Winding(s, PeerForLink(g, s, l, fallback).reg, {l})
    ensures PeerForLink(g, s, l, fallback).reg.links == s.links
  {
    hide Canonical, P.Conserved, Worth, Resolve;
  }

  lemma RegisterWinds(g: Setting, s: Reg, l: LinkId, h: Hash)
    ensures Winding(s, RegisterLink(g, s, l, h), {l})
  {
    hide Canonical, P.Conserved, RemotePeer, Same, Dest;
  }

  lemma EstablishedWinds(g: Setting, s: Reg, l: LinkId, h: Hash)
    ensures Winding(s, EstablishedPeer(g, s, l, h).reg, {l})
  {
    hide Canonical, P.Conserved, Dest, PeerForLink;
    PeerWinds(g, s, l, h);
  }

  lemma AdoptWinds(g: Setting, s: Reg, l: LinkId, peer: Hash)
    ensures Winding(s, Adopt(g, s, l, peer), {l})
  {
    hide P.Conserved, Dest, Same, RegisterLink;
    RegisterWinds(g, s, l, peer);
  }

  lemma UnlinkWinds(g: Setting, s: Reg, h: Hash)
    ensures Winding(s, Unlink(g, s, h), {})
  {
    hide P.Conserved, Dest, Same;
  }

  lemma ForgetWinds(g: Setting, s: Reg, l: LinkId)
    ensures Winding(s, Dropped(g, s, l).reg, {}) && Gone(Dropped(g, s, l).reg, l)
  {
    hide P.Conserved, Dest, PeerForLink;
    PeerWinds(g, s, l, "");
  }

  lemma AfterCloseWinds(g: Setting, s: Reg, l: LinkId, remote: Hash)
    ensures Winding(s, AfterClose(g, s, l, remote), {})
    ensures AfterClose(g, s, l, remote).links == s.links && AfterClose(g, s, l, remote).hashOf == s.hashOf
  {
    hide P.Conserved, P.Next, Dest, FilesStep, UserDisconnected, LinkForPeer, View, Now;
    if P.Conserved(s.files) {
      P.NextConserves(s.files, FilesStep(g, s, l, remote));
    }
  }

  /** Others are cached, live and listed for the peer. */
  lemma OthersKnown(g: Setting, s: Reg, l: LinkId, peer: Hash, x: LinkId)
    requires x in Others(g, s, l, peer)
    ensures x != l && x in s.hashOf.vals && x in s.links && IsActive(Now(g, s), x) && Same(g, s.hashOf.vals[x], peer)
  {
    hide Equivalent, IsActive;
  }

  lemma SelfWinds(s: Reg, extra: set<LinkId>)
    ensures Winding(s, s, extra)
  {
  }

  lemma RefilePutWinds(s: Reg, k: LinkKey, x: LinkId)
    ensures Winding(s, s.(byPeer := Put(s.byPeer, k, x)), {})
  {
    hide P.Conserved;
  }

  lemma {:induction false} ConsolidateWinds(g: Setting, s: Reg, hash: Hash, keep: Option<LinkId>, transport: Option<Transport>)
    ensures Winding(s, Consolidate(g, s, hash, keep, transport), {})
    decreases Open(s), 2, 0
  {
    hide Winding, Listed;
    CloseAllWinds(g, s, Listed(g, s, hash), keep, transport);
  }

  lemma {:induction false} CloseAllWinds(g: Setting, s: Reg, targets: seq<LinkId>, keep: Option<LinkId>, transport: Option<Transport>)
    ensures Winding(s, CloseAll(g, s, targets, keep, transport), {})
    decreases Open(s), 1, |targets|
  {
    hide Winding, Spare, Teardown;
    SelfWinds(s, {});
    if targets != [] {
      var l := targets[0];
      var t := CloseOne(g, s, l, keep, transport);
      if Spare(g, l, keep, transport) && l in Open(s) {
        TeardownWinds(g, s, l);
      }
      CloseAllWinds(g, t, targets[1..], keep, transport);
      WindingChain(s, t, CloseAll(g, t, targets[1..], keep, transport));
    }
  }

  lemma {:induction false} TeardownWinds(g: Setting, s: Reg, l: LinkId)
    requires l in Open(s)
    ensures Winding(s, Teardown(g, s, l), {}) && Gone(Teardown(g, s, l), l)
    decreases Open(s), 0, 0
  {
    hide LinkClosed, Gone;
    var t := s.(status := s.status[l := Closed]);
    assert Open(t) == Open(s) - {l};
    assert Winding(s, t, {}) by {
      hide P.Conserved;
    }
    hide Winding;
    ClosedWinds(g, t, l);
    WindingChain(s, t, LinkClosed(g, t, l));
  }

  /** The closed link is out of both tables for good. */
  lemma {:induction false} ClosedWinds(g: Setting, s: Reg, l: LinkId)
    ensures Winding(s, LinkClosed(g, s, l), {}) && Gone(LinkClosed(g, s, l), l)
    decreases Open(s), 5, 0
  {
    hide Winding, Dropped, Refile, AfterClose, Gone, Dest;
    var f := Dropped(g, s, l);
    ForgetWinds(g, s, l);
    SelfWinds(f.reg, {});
    var t := f.reg;
    if !Unresolved(f.peer) {
      t := Refile(g, f.reg, l, Dest(g, f.peer));
      RefileWinds(g, f.reg, l, Dest(g, f.peer));
    }
    WindingChain(s, f.reg, t);
    AfterCloseWinds(g, t, l, f.peer);
    WindingChain(f.reg, t, AfterClose(g, t, l, f.peer));
    WindingChain(s, f.reg, AfterClose(g, t, l, f.peer));
  }

  lemma {:induction false} RefileWinds(g: Setting, s: Reg, l: LinkId, peer: Hash)
    ensures Winding(s, Refile(g, s, l, peer), {})
    decreases Open(s), 4, 0
  {
    hide Winding, Others, Notify, Unlink, Same;
    var others := Others(g, s, l, peer);
    if others == [] {
      UnlinkWinds(g, s, peer);
    } else {
      var x := others[0];
      OthersKnown(g, s, l, peer, x);
      var t := s.(byPeer := Put(s.byPeer, Plain(peer), x));
      RefilePutWinds(s, Plain(peer), x);
      if s.activeLink == Some(l) && !s.handoff {
        NotifyWinds(g, t, x, peer, true);
        var r := Notify(g, t, x, peer, true);
        WindingTrans(s, t, r, {}, {x});
        assert {} + {x} == {x};
        WindingWider(s, r, {x});
      }
    }
  }

  /** Only the link notified about may be new to the cache. */
  lemma {:induction false} NotifyWinds(g: Setting, s: Reg, l: LinkId, hash: Hash, promote: bool)
    ensures Winding(s, Notify(g, s, l, hash, promote), {l})
    decreases Open(s), 3, 0
  {
    hide Winding, EstablishedPeer, RegisterLink, Consolidate, Adopt;
    var found := EstablishedPeer(g, s, l, hash);
    EstablishedWinds(g, s, l, hash);
    if !IsHubPeer(found.peer) && !Unresolved(found.peer) {
      var t := RegisterLink(g, found.reg, l, found.peer);
      RegisterWinds(g, found.reg, l, found.peer);
      WindingTrans(s, found.reg, t, {l}, {l});
      assert {l} + {l} == {l} && {l} + {} == {l};
      if promote {
        var u := Consolidate(g, t, found.peer, Some(l), None);
        ConsolidateWinds(g, t, found.peer, Some(l), None);
        WindingTrans(s, t, u, {l}, {});
        AdoptWinds(g, u, l, found.peer);
        WindingTrans(s, u, Adopt(g, u, l, found.peer), {l}, {l});
      }
    }
  }

  /** Outside a handoff a closed link is neither active nor send link any more. */
  lemma ClosedLetsGo(g: Setting, s: Reg, l: LinkId)
    requires !s.handoff
    ensures LinkClosed(g, s, l).activeLink != Some(l) && LinkClosed(g, s, l).sendLink != Some(l)
  {
    hide Dropped, Refile, Dest, LinkForPeer, View, Now, UserDisconnected, FilesStep;
    var f := Dropped(g, s, l);
    if !Unresolved(f.peer) {
      RefileWinds(g, f.reg, l, Dest(g, f.peer));
    }
  }

  /** Promotion picks another link, of a session the user did not disconnect, or none. */
  lemma PromoteMeaning(g: Setting, s: Reg, l: LinkId)
    ensures var r := Promote(g, s, l);
            && r.activeLink != Some(l)
            && (if r.activeLink.None? then r.sendLink == s.sendLink else r.sendLink == r.activeLink)
            && (r.activeLink.Some? ==> !UserDisconnected(g, r.activePeer) && r.activePeer == Dest(g, r.sessionPeer)
                                       && r.activeLink == LinkForPeer(View(g, r.(activePeer := "")), Now(g, s), r.activePeer, None))
  {
    hide Dest, LinkForPeer, UserDisconnected;
  }

  /** Closing these links promotes nothing: a handoff is under way, or the active link is not among them. */
  predicate Quiet(s: Reg, closing: set<LinkId>) {
    s.handoff || s.activeLink.None? || s.activeLink.value !in closing
  }

  /** Refiling a peer that lost a link it was not active on: another live link of the peer is filed under it, or no
      key of the peer stays and every other key does. */
  lemma RefileMeaning(g: Setting, s: Reg, l: LinkId, peer: Hash)
    requires Quiet(s, {l})
    ensures var r, others, own := Refile(g, s, l, peer), Others(g, s, l, peer), Dest(g, peer);
            && (others != [] ==>
                && r.byPeer == Put(s.byPeer, Plain(peer), others[0])
                && others[0] != l && others[0] in s.links && IsActive(Now(g, s), others[0])
                && others[0] in s.hashOf.vals && Same(g, s.hashOf.vals[others[0]], peer))
            && (others == [] && own != "" ==>
                forall k :: k in r.byPeer.vals <==> k in s.byPeer.vals && k != Plain(own) && !Same(g, k.peer, own))
  {
    hide Others, Same, Dest, IsActive;
    if Others(g, s, l, peer) != [] {
      OthersKnown(g, s, l, peer, Others(g, s, l, peer)[0]);
    }
  }

  /** A notified link with a known peer becomes the session's, unless a session of another peer runs beside it. */
  lemma NotifyAdopts(g: Setting, s: Reg, l: LinkId, hash: Hash)
    requires var p := EstablishedPeer(g, s, l, hash).peer; !Unresolved(p) && !IsHubPeer(p)
    requires !g.parallel
    ensures var r, p := Notify(g, s, l, hash, true), EstablishedPeer(g, s, l, hash).peer;
            r.activeLink == r.sendLink == Some(l) && r.activePeer == r.sessionPeer == p
  {
    hide EstablishedPeer, RegisterLink, Consolidate, Dest, Same;
  }

  // ----- announced files -----

  /** The link found for the party whose files a closing link was waiting for: the session's peer, else the active one,
      else the link's own. */
  function Heir(g: Setting, s: Reg, remote: Hash): Option<LinkId> {
    var party := if s.sessionPeer != "" then s.sessionPeer else if s.activePeer != "" then s.activePeer else remote;
    LinkForPeer(View(g, s), g.env.(status := s.status), Dest(g, party), None)
  }

  /** What becomes of the announcements waiting on l: behind those of another link during a transfer, else gone. */
  ghost predicate FilesSettled(g: Setting, s: Reg, l: LinkId, remote: Hash, r: P.PState) {
    var heir, was := Heir(g, s, remote), s.files.pending;
    var busy := || g.sending
                || (exists x :: P.QueueOf(was, x) != [])
                || (exists x :: x in s.links && x in g.incoming);
    && r.arrived == s.files.arrived
    && P.QueueOf(r.pending, l) == []
    && if busy && heir.Some? && heir.value != l then
         && r.gone == s.files.gone
         && P.QueueOf(r.pending, heir.value) == P.QueueOf(was, heir.value) + P.QueueOf(was, l)
         && forall x :: x != l && x != heir.value ==> P.QueueOf(r.pending, x) == P.QueueOf(was, x)
       else
         && r.gone == s.files.gone + P.QueueOf(was, l)
         && forall x :: x != l ==> P.QueueOf(r.pending, x) == P.QueueOf(was, x)
  }

  lemma SettleMeaning(g: Setting, s: Reg, l: LinkId, remote: Hash)
    ensures if s.handoff then SettleFiles(g, s, l, remote) == s
            else FilesSettled(g, s, l, remote, SettleFiles(g, s, l, remote).files)
  {
    hide LinkForPeer, Dest, P.Next, P.QueueOf, View;
    if !s.handoff {
      BusyMeaning(g, s);
      hide TransferUnderWay;
      var heir := Heir(g, s, remote);
      if heir.Some? && heir.value != l {
        MigrateMeaning(s.files, l, heir.value);
      }
      FlushMeaning(s.files, l);
      assert FilesStep(g, s, l, remote)
          == if TransferUnderWay(g, s) && heir.Some? && heir != Some(l) then P.Migrate(l, heir.value) else P.Flush(l);
    }
  }

  lemma BusyMeaning(g: Setting, s: Reg)
    ensures TransferUnderWay(g, s) <==>
              || g.sending
              || (exists x :: P.QueueOf(s.files.pending, x) != [])
              || (exists x :: x in s.links && x in g.incoming)
  {
    if x :| P.QueueOf(s.files.pending, x) != [] {
      assert x in s.files.pending.vals;
    }
    if x :| x in s.files.pending.vals && s.files.pending.vals[x] != [] {
      assert P.QueueOf(s.files.pending, x) != [];
    }
  }

  lemma MigrateMeaning(s: P.PState, from: LinkId, into: LinkId)
    requires from != into
    ensures var r := P.Next(s, P.Migrate(from, into));
            && r.arrived == s.arrived && r.gone == s.gone && P.QueueOf(r.pending, from) == []
            && P.QueueOf(r.pending, into) == P.QueueOf(s.pending, into) + P.QueueOf(s.pending, from)
            && forall x :: x != from && x != into ==> P.QueueOf(r.pending, x) == P.QueueOf(s.pending, x)
  {
  }

  lemma FlushMeaning(s: P.PState, l: LinkId)
    ensures var r := P.Next(s, P.Flush(l));
            && r.arrived == s.arrived && r.gone == s.gone + P.QueueOf(s.pending, l) && P.QueueOf(r.pending, l) == []
            && forall x :: x != l ==> P.QueueOf(r.pending, x) == P.QueueOf(s.pending, x)
  {
  }

  /** An announcement waiting on a closing link is dropped exactly when no other link is found to take it over: that it
      waits is itself a transfer under way. */
  lemma DroppedIffNoHeir(g: Setting, s: Reg, l: LinkId, remote: Hash)
    requires !s.handoff && P.QueueOf(s.files.pending, l) != []
    ensures var r, heir := SettleFiles(g, s, l, remote), Heir(g, s, remote);
            if heir.None? || heir.value == l then r.files.gone == s.files.gone + P.QueueOf(s.files.pending, l)
            else
              && r.files.gone == s.files.gone
              && P.QueueOf(r.files.pending, heir.value) == P.QueueOf(s.files.pending, heir.value) + P.QueueOf(s.files.pending, l)
  {
    hide Heir, SettleFiles;
    SettleMeaning(g, s, l, remote);
  }

  /** The close callback settles the link's announcements once its peer is refiled, and leaves all alone in a handoff. */
  lemma ClosedSettles(g: Setting, s: Reg, l: LinkId)
    ensures var t, r := Refiled(g, s, l), LinkClosed(g, s, l);
            if s.handoff then r.files == s.files else FilesSettled(g, t, l, Dropped(g, s, l).peer, r.files)
  {
    hide Dest, FilesSettled, Dropped, Refiled, SettleFiles, Promote;
    RefiledHandoff(g, s, l);
    SettleMeaning(g, Refiled(g, s, l), l, Dropped(g, s, l).peer);
    if s.handoff {
      RefiledKeeps(g, s, l);
    }
    PromoteKeepsFiles(g, SettleFiles(g, Refiled(g, s, l), l, Dropped(g, s, l).peer), l);
  }

  lemma PromoteKeepsFiles(g: Setting, s: Reg, l: LinkId)
    ensures Promote(g, s, l).files == s.files
  {
    hide Dest, LinkForPeer, UserDisconnected;
  }

  lemma RefiledHandoff(g: Setting, s: Reg, l: LinkId)
    ensures Refiled(g, s, l).handoff == s.handoff
  {
    hide Dropped, Refile;
    ForgetKeepsRest(g, s, l);
    var f := Dropped(g, s, l);
    if !Unresolved(f.peer) {
      RefileWinds(g, f.reg, l, Dest(g, f.peer));
    }
  }

  /** Unless the closed link was the active one, refiling is about tables alone: what decides over the announcements is
      what held at the close, less the link itself. */
  lemma RefiledKeeps(g: Setting, s: Reg, l: LinkId)
    requires Quiet(s, {l})
    ensures var t := Refiled(g, s, l);
            && t.files == s.files && t.status == s.status && t.sessionPeer == s.sessionPeer
            && t.activePeer == s.activePeer && forall x :: x in t.links <==> x in s.links && x != l
  {
    hide Dest, Same, Others;
    ForgetKeepsRest(g, s, l);
    hide Dropped;
  }

  lemma FindingOnlyCaches(g: Setting, s: Reg, l: LinkId, fallback: Hash)
    ensures var r := PeerForLink(g, s, l, fallback).reg; r == s.(hashOf := r.hashOf)
  {
    hide Canonical, Worth, Resolve, Self;
  }

  lemma ForgetKeepsRest(g: Setting, s: Reg, l: LinkId)
    ensures var r := Dropped(g, s, l).reg;
            && r == s.(links := r.links, hashOf := r.hashOf)
            && forall x :: x in r.links <==> x in s.links && x != l
  {
    FindingOnlyCaches(g, s, l, "");
    hide Dest, PeerForLink;
  }

  // ----- what is closed -----

  /** The links a consolidation is to close. */
  function Condemned(g: Setting, s: Reg, hash: Hash, keep: Option<LinkId>, transport: Option<Transport>): set<LinkId> {
    set l | l in Listed(g, s, hash) && Spare(g, l, keep, transport)
  }

  /** Every spare link listed for the peer at the call is closed on return. */
  lemma ConsolidateCloses(g: Setting, s: Reg, hash: Hash, keep: Option<LinkId>, transport: Option<Transport>)
    ensures Open(Consolidate(g, s, hash, keep, transport)) !! Condemned(g, s, hash, keep, transport)
  {
    hide Listed, Spare, Open;
    CloseAllCloses(g, s, Listed(g, s, hash), keep, transport);
  }

  lemma {:induction false} CloseAllCloses(g: Setting, s: Reg, targets: seq<LinkId>, keep: Option<LinkId>, transport: Option<Transport>)
    ensures forall l :: l in targets && Spare(g, l, keep, transport) ==> l !in Open(CloseAll(g, s, targets, keep, transport))
    decreases |targets|
  {
    hide Spare, Open, Teardown;
    if targets != [] {
      var t := CloseOne(g, s, targets[0], keep, transport);
      CloseAllCloses(g, t, targets[1..], keep, transport);
      assert Open(CloseAll(g, t, targets[1..], keep, transport)) <= Open(t);
      assert forall l :: l in targets <==> l == targets[0] || l in targets[1..];
    }
  }

  lemma ClosedQuiet(g: Setting, s: Reg, l: LinkId)
    requires Quiet(s, {l})
    ensures Quietly(s, LinkClosed(g, s, l)) && LinkClosed(g, s, l).activeLink == s.activeLink
  {
    hide Dest, LinkForPeer, View, Now, UserDisconnected, FilesStep, PeerForLink;
    RefiledQuiet(g, s, l);
    hide Refiled, Dropped;
  }

  lemma RefiledQuiet(g: Setting, s: Reg, l: LinkId)
    requires Quiet(s, {l})
    ensures Quietly(s, Refiled(g, s, l)) && Refiled(g, s, l).activeLink == s.activeLink
  {
    hide Dest, Same, Others;
    ForgetKeepsRest(g, s, l);
    hide Dropped;
  }

  lemma TeardownQuiet(g: Setting, s: Reg, l: LinkId)
    requires l in Open(s) && Quiet(s, {l})
    ensures var r := Teardown(g, s, l);
            Open(r) == Open(s) - {l} && r.activeLink == s.activeLink && r.handoff == s.handoff
  {
    hide LinkClosed;
    var t := s.(status := s.status[l := Closed]);
    assert Open(t) == Open(s) - {l};
    ClosedQuiet(g, t, l);
  }

  lemma {:induction false} CloseAllQuiet(g: Setting, s: Reg, targets: seq<LinkId>, keep: Option<LinkId>, transport: Option<Transport>)
    requires Quiet(s, set l | l in targets && Spare(g, l, keep, transport))
    ensures var r := CloseAll(g, s, targets, keep, transport);
            && Open(r) == Open(s) - (set l | l in targets && Spare(g, l, keep, transport))
            && r.activeLink == s.activeLink && r.handoff == s.handoff
    decreases |targets|
  {
    hide Spare, Teardown, Open;
    if targets != [] {
      var l := targets[0];
      assert forall x :: x in targets <==> x == l || x in targets[1..];
      if Spare(g, l, keep, transport) && l in Open(s) {
        TeardownQuiet(g, s, l);
      }
      CloseAllQuiet(g, CloseOne(g, s, l, keep, transport), targets[1..], keep, transport);
    }
  }

  /** When nothing can be promoted, exactly the spare links are closed and the active link stays. */
  lemma ConsolidateExact(g: Setting, s: Reg, hash: Hash, keep: Option<LinkId>, transport: Option<Transport>)
    requires Quiet(s, Condemned(g, s, hash, keep, transport))
    ensures var r := Consolidate(g, s, hash, keep, transport);
            Open(r) == Open(s) - Condemned(g, s, hash, keep, transport) && r.activeLink == s.activeLink
  {
    hide Listed, Spare, Open;
    CloseAllQuiet(g, s, Listed(g, s, hash), keep, transport);
  }
}
