/** What each operation of the link registry does to its state, re-entrant close callbacks included. */
module LinkSteps {
  import opened Collections
  import opened Aliases
  import opened LinkChoice
  import P = PendingFiles

  /** What the registry only reads: aliases, link facts, answers of identity recall and the peer resolver, settings,
      and which transfers are under way. */
  datatype Setting = Setting(
    aliases: AliasMap,
    env: Env,
    recall: map<Hash, Hash>,
    resolver: map<LinkId, Hash>,
    disconnected: set<Hash>,
    parallel: bool,
    sending: bool,
    incoming: set<LinkId>)

  datatype Reg = Reg(
    status: map<LinkId, Status>,
    links: seq<LinkId>,
    hashOf: Dict<LinkId, Hash>,
    byPeer: Dict<LinkKey, LinkId>,
    activeLink: Option<LinkId>,
    activePeer: Hash,
    sessionPeer: Hash,
    sessionTransport: Option<Transport>,
    sendLink: Option<LinkId>,
    handoff: bool,
    files: P.PState)

  // ----- views -----

  function View(g: Setting, s: Reg): Table {
    Table(g.aliases, s.links, s.hashOf, s.byPeer, s.activePeer, s.sessionPeer, s.sessionTransport)
  }

  function Now(g: Setting, s: Reg): Env {
    g.env.(status := s.status)
  }

  function Open(s: Reg): set<LinkId> {
    set l | l in s.status && s.status[l] != Closed
  }

  function Dest(g: Setting, h: Hash): Hash {
    DestFor(g.aliases, h)
  }

  predicate Same(g: Setting, a: Hash, b: Hash) {
    Equivalent(g.aliases, a, b)
  }

  predicate Self(g: Setting, h: Hash) {
    IsSelf(g.env, h)
  }

  function FamilyOf(g: Setting, l: LinkId): Family {
    Info(g.env, l).family
  }

  /** The destination of a link's identified remote, "" when unknown or our own. */
  function IdentityPeer(g: Setting, l: LinkId): Hash {
    var h := Info(g.env, l).identityDest;
    if Self(g, h) then "" else h
  }

  function IdentityOr(g: Setting, l: LinkId, other: Hash): Hash {
    if Unresolved(IdentityPeer(g, l)) then other else IdentityPeer(g, l)
  }

  function Recalled(g: Setting, h: Hash): Hash {
    if h in g.recall && !Self(g, g.recall[h]) then g.recall[h] else ""
  }

  /** canonical_connect_hash. */
  function Canonical(g: Setting, h: Hash, l: LinkId): Hash {
    if Unresolved(h) || Self(g, h) then IdentityOr(g, l, "")
    else if Dest(g, h) in g.aliases.identOf then Dest(g, h)
    else if Recalled(g, h) != "" then Recalled(g, h)
    else IdentityOr(g, l, if |Dest(g, h)| == 32 then Dest(g, h) else "")
  }

  predicate UserDisconnected(g: Setting, peer: Hash) {
    Dest(g, peer) != "" && exists h :: h in g.disconnected && Same(g, Dest(g, peer), h)
  }

  /** _resolve_remote_peer. */
  function Resolve(g: Setting, l: LinkId, fallback: Hash): Hash {
    if l in g.resolver && g.resolver[l] != "" then Dest(g, g.resolver[l])
    else if Info(g.env, l).identityDest != "" then Dest(g, Info(g.env, l).identityDest)
    else if fallback != "" then Dest(g, fallback)
    else UNKNOWN
  }

  /** Links consolidation tears down: those listed for the peer, in keep's family when sessions run in parallel. */
  predicate Spare(g: Setting, l: LinkId, keep: Option<LinkId>, transport: Option<Transport>) {
    && Some(l) != keep
    && !(g.parallel && keep.Some? && FamilyOf(g, keep.value) != NoFamily && FamilyOf(g, l) != FamilyOf(g, keep.value))
    && (transport.Some? ==> TransportOf(g.env, l) == transport.value)
  }

  function Listed(g: Setting, s: Reg, hash: Hash): seq<LinkId> {
    LinksFor(View(g, s), Now(g, s), hash)
  }

  // ----- operations that close nothing -----

  predicate Quietly(s: Reg, r: Reg) {
    r.status == s.status && r.handoff == s.handoff
  }

  /** A hash found for a link, and the state after looking. */
  datatype Answer = Answer(peer: Hash, reg: Reg)

  /** _cache_link_peer. */
  function CachePeer(g: Setting, s: Reg, l: LinkId, h: Hash): (r: Reg)
    ensures Quietly(s, r)
  {
    var c := Canonical(g, h, l);
    if Unresolved(h) || c == "" || Self(g, c) then s else s.(hashOf := Put(s.hashOf, l, c))
  }

  predicate Worth(g: Setting, h: Hash, l: LinkId) {
    h != "" && !Self(g, h) && Canonical(g, h, l) != ""
  }

  /** _peer_for_link: identity first, then the cache, then the resolver, then the fallback. */
  function PeerForLink(g: Setting, s: Reg, l: LinkId, fallback: Hash): (r: Answer)
    ensures Quietly(s, r.reg)
  {
    var ident := IdentityPeer(g, l);
    var cached := if l in s.hashOf.vals then s.hashOf.vals[l] else "";
    var resolved := Resolve(g, l, fallback);
    if !Unresolved(ident) then Answer(ident, CachePeer(g, s, l, ident))
    else if Worth(g, cached, l) then Answer(Canonical(g, cached, l), s)
    else if resolved != UNKNOWN && Worth(g, resolved, l) then
      Answer(Canonical(g, resolved, l), CachePeer(g, s, l, Canonical(g, resolved, l)))
    else if Worth(g, fallback, l) then Answer(Canonical(g, fallback, l), CachePeer(g, s, l, Canonical(g, fallback, l)))
    else Answer(UNKNOWN, s)
  }

  /** _register_peer_link: refused when the link's remote party is known to be someone else. */
  function RegisterLink(g: Setting, s: Reg, l: LinkId, hash: Hash): (r: Reg)
    ensures Quietly(s, r)
  {
    var peer := Dest(g, hash);
    var remote := RemotePeer(View(g, s), Now(g, s), l);
    if Unresolved(peer) || (remote != "" && !Same(g, remote, peer)) then s
    else
      var key := Zoned(Dest(g, peer), TransportOf(g.env, l));
      CachePeer(g, s.(byPeer := Remove(Put(s.byPeer, key, l), Plain(peer))), l, peer)
  }

  /** _unlink_peer without a transport. */
  function Unlink(g: Setting, s: Reg, hash: Hash): (r: Reg)
    ensures Quietly(s, r)
  {
    var peer := Dest(g, hash);
    if peer == "" then s
    else s.(byPeer := Keep(Remove(s.byPeer, Plain(peer)), (k: LinkKey, l) => !Same(g, k.peer, peer)))
  }

  /** The peer an established link is registered under: the given hash, the identity, the cache, the session. */
  function EstablishedPeer(g: Setting, s: Reg, l: LinkId, hash: Hash): (r: Answer)
    ensures Quietly(s, r.reg)
  {
    var given := Canonical(g, hash, l);
    if !Unresolved(given) then Answer(given, s)
    else if !Unresolved(IdentityPeer(g, l)) then Answer(IdentityPeer(g, l), s)
    else
      var found := PeerForLink(g, s, l, hash);
      var peer := Canonical(g, found.peer, l);
      var session := Dest(g, s.sessionPeer);
      if Unresolved(peer) && session != "" && !IsHubPeer(session) then Answer(session, found.reg)
      else Answer(peer, found.reg)
  }

  /** Makes the link the active session's unless another session runs beside it. */
  function Adopt(g: Setting, s: Reg, l: LinkId, peer: Hash): (r: Reg)
    ensures Quietly(s, r)
  {
    var session := Dest(g, s.sessionPeer);
    if !g.parallel || session == "" || Same(g, peer, session) || s.activeLink.None? then
      s.(activeLink := Some(l), activePeer := peer, sessionPeer := peer, sendLink := Some(l))
    else RegisterLink(g, s, l, peer)
  }

  /** The close callback's first lines: the link leaves both tables. */
  function Dropped(g: Setting, s: Reg, l: LinkId): (r: Answer)
    ensures Quietly(s, r.reg)
  {
    var found := PeerForLink(g, s, l, "");
    Answer(Dest(g, found.peer),
           found.reg.(links := Filter(s.links, (x: LinkId) => x != l), hashOf := Remove(found.reg.hashOf, l)))
  }

  /** _other_active_links_for_peer. */
  function Others(g: Setting, s: Reg, l: LinkId, peer: Hash): seq<LinkId> {
    Filter(ActiveFor(View(g, s), Now(g, s), peer), (x: LinkId) => x != l)
  }

  predicate TransferUnderWay(g: Setting, s: Reg) {
    || g.sending
    || (exists l :: l in s.files.pending.vals && s.files.pending.vals[l] != [])
    || (exists l :: l in s.links && l in g.incoming)
  }

  /** Where a closing link's announced files go: another link of the session's peer during a transfer, else nowhere. */
  function FilesStep(g: Setting, s: Reg, l: LinkId, remote: Hash): P.Step {
    var peer := Dest(g, if s.sessionPeer != "" then s.sessionPeer else if s.activePeer != "" then s.activePeer else remote);
    var other := LinkForPeer(View(g, s), Now(g, s), peer, None);
    if TransferUnderWay(g, s) && other.Some? && other != Some(l) then P.Migrate(l, other.value) else P.Flush(l)
  }

  function SettleFiles(g: Setting, s: Reg, l: LinkId, remote: Hash): (r: Reg)
    ensures Quietly(s, r)
  {
    if s.handoff then s else s.(files := P.Next(s.files, FilesStep(g, s, l, remote)))
  }

  /** The session is kept unless the user disconnected its peer; nothing is active any more. */
  function Demoted(g: Setting, s: Reg): (r: Reg)
    ensures Quietly(s, r)
  {
    var lost := Dest(g, s.activePeer);
    var kept := if s.activePeer != "" && lost != "" && !UserDisconnected(g, lost) then s.activePeer else s.sessionPeer;
    s.(activeLink := None, activePeer := "", sessionPeer := kept)
  }

  function NextSession(g: Setting, t: Reg, l: LinkId): (r: Reg)
    ensures Quietly(t, r)
  {
    var session := Dest(g, t.sessionPeer);
    if session == "" || UserDisconnected(g, session) then t
    else
      var next := LinkForPeer(View(g, t), Now(g, t), session, None);
      if next.Some? && next != Some(l) then t.(activeLink := next, activePeer := session, sendLink := next) else t
  }

  /** The session's next link once its active link is gone. */
  function Promote(g: Setting, s: Reg, l: LinkId): (r: Reg)
    ensures Quietly(s, r)
  {
    NextSession(g, Demoted(g, s), l)
  }

  function FixSendLink(s: Reg, l: LinkId): (r: Reg)
    ensures Quietly(s, r)
  {
    if s.sendLink == Some(l) then s.(sendLink := s.activeLink) else s
  }

  /** The close callback's last lines. */
  function AfterClose(g: Setting, s: Reg, l: LinkId, remote: Hash): (r: Reg)
    ensures Quietly(s, r)
  {
    var t := SettleFiles(g, s, l, remote);
    FixSendLink(if t.activeLink == Some(l) && !t.handoff then Promote(g, t, l) else t, l)
  }

  // ----- the re-entrant part -----

  /** _consolidate_peer_links. */
  function Consolidate(g: Setting, s: Reg, hash: Hash, keep: Option<LinkId>, transport: Option<Transport>): (r: Reg)
    ensures Open(r) <= Open(s)
    decreases Open(s), 2, 0
  {
    CloseAll(g, s, Listed(g, s, hash), keep, transport)
  }

  /** Its loop over the links listed when it was called. */
  function CloseAll(g: Setting, s: Reg, targets: seq<LinkId>, keep: Option<LinkId>, transport: Option<Transport>): (r: Reg)
    ensures Open(r) <= Open(s)
    decreases Open(s), 1, |targets|
  {
    if targets == [] then s
    else CloseAll(g, CloseOne(g, s, targets[0], keep, transport), targets[1..], keep, transport)
  }

  function CloseOne(g: Setting, s: Reg, l: LinkId, keep: Option<LinkId>, transport: Option<Transport>): (r: Reg)
    ensures Open(r) <= Open(s)
    decreases Open(s), 0, 1
  {
    if Spare(g, l, keep, transport) && l in Open(s) then Teardown(g, s, l) else s
  }

  function Teardown(g: Setting, s: Reg, l: LinkId): (r: Reg)
    requires l in Open(s)
    ensures Open(r) <= Open(s) - {l}
    decreases Open(s), 0, 0
  {
    var t := s.(status := s.status[l := Closed]);
    assert Open(t) == Open(s) - {l};
    LinkClosed(g, t, l)
  }

  /** The close callback. */
  function LinkClosed(g: Setting, s: Reg, l: LinkId): (r: Reg)
    ensures Open(r) <= Open(s)
    decreases Open(s), 5, 0
  {
    AfterClose(g, Refiled(g, s, l), l, Dropped(g, s, l).peer)
  }

  /** The callback's first half: the link out of both tables, and its peer's registration seen to. */
  function Refiled(g: Setting, s: Reg, l: LinkId): (r: Reg)
    ensures Open(r) <= Open(s)
    decreases Open(s), 4, 1
  {
    var f := Dropped(g, s, l);
    if Unresolved(f.peer) then f.reg else Refile(g, f.reg, l, Dest(g, f.peer))
  }

  /** The peer's registration after losing a link: another of its links takes over, else none is left. */
  function Refile(g: Setting, s: Reg, l: LinkId, peer: Hash): (r: Reg)
    ensures Open(r) <= Open(s)
    decreases Open(s), 4, 0
  {
    var others := Others(g, s, l, peer);
    if others == [] then
      Unlink(g, s, peer)
    else
      var t := s.(byPeer := Put(s.byPeer, Plain(peer), others[0]));
      if s.activeLink == Some(l) && !s.handoff then Notify(g, t, others[0], peer, true) else t
  }

  /** _notify_link_established. */
  function Notify(g: Setting, s: Reg, l: LinkId, hash: Hash, promote: bool): (r: Reg)
    ensures Open(r) <= Open(s)
    decreases Open(s), 3, 0
  {
    var found := EstablishedPeer(g, s, l, hash);
    var peer := found.peer;
    if IsHubPeer(peer) || Unresolved(peer) then found.reg
    else
      var t := RegisterLink(g, found.reg, l, peer);
      if !promote then t
      else
        var u := Consolidate(g, t, peer, Some(l), None);
        Adopt(g, u, l, peer)
  }
}
