/** Which link may carry a packet to a peer: identity match, transport zone, and the best of several. */
module LinkChoice {
  import opened Collections
  import opened Aliases

  /** An RNS link id, only ever compared. */
  type LinkId = int

  datatype Family = NoFamily | Serial | Udp | Lan | Tcp | Other
  datatype Status = Active | Closed | NotActive
  datatype Transport = OverSerial | OverLan

  /** What the program reads of an RNS link: attached interface, remote identity's destination, round trip, MTU. */
  datatype LinkInfo = LinkInfo(
    family: Family,
    healthy: bool,
    hubTransport: bool,
    identityDest: Hash,
    rttScore: Option<nat>,
    mtu: int)

  datatype PeerMeta = PeerMeta(viaSerial: bool, ip: string)

  /** The environment at one moment: links, path table, discovery rows and settings. */
  datatype Env = Env(
    status: map<LinkId, Status>,
    info: map<LinkId, LinkInfo>,
    meta: map<Hash, PeerMeta>,
    usableIps: set<string>,
    paths: map<Hash, Family>,
    serialReady: bool,
    lanReady: bool,
    lanReachable: bool,
    selfHashes: set<Hash>,
    hubOn: bool,
    hubServer: Hash)

  /** Keys of peer_links: a bare peer, or a peer with a transport suffix. */
  datatype LinkKey = Plain(peer: Hash) | Zoned(peer: Hash, transport: Transport)

  /** The key read as a hash: normalisation drops the colon before the suffix. */
  function KeyText(k: LinkKey): Hash {
    match k
    case Plain(p) => p
    case Zoned(p, OverSerial) => p + "serial"
    case Zoned(p, OverLan) => p + "lan"
  }

  /** The backend's link tables. */
  datatype Table = Table(
    aliases: AliasMap,
    links: seq<LinkId>,
    hashOf: Dict<LinkId, Hash>,
    byPeer: Dict<LinkKey, LinkId>,
    activePeer: Hash,
    sessionPeer: Hash,
    sessionTransport: Option<Transport>)

  const UNKNOWN_LINK := LinkInfo(NoFamily, false, false, "", None, 500)

  function Info(env: Env, l: LinkId): LinkInfo {
    if l in env.info then env.info[l] else UNKNOWN_LINK
  }

  predicate IsActive(env: Env, l: LinkId) {
    l in env.status && env.status[l] == Active
  }

  predicate IsLanFamily(f: Family) {
    f == Udp || f == Lan || f == Tcp
  }

  /** The three answers of _peer_expected_transport_families: no lock, {serial}, {udp, lan, tcp}. */
  datatype Zone = Unlocked | SerialOnly | LanOnly

  function TransportOf(env: Env, l: LinkId): Transport {
    if Info(env, l).family == Serial then OverSerial else OverLan
  }

  predicate HasPathOn(env: Env, peer: Hash, f: Family) {
    |peer| == 32 && peer in env.paths && env.paths[peer] == f
  }

  // ----- transport zones -----

  /** _peer_expected_transport_families, branch by branch. */
  function ExpectedZone(t: Table, env: Env, hash: Hash): Zone {
    var peer := DestFor(t.aliases, hash);
    if Unresolved(peer) || IsHubPeer(peer) then Unlocked
    else
      var known := peer in env.meta;
      var viaSerial := known && env.meta[peer].viaSerial;
      var ip := if known then env.meta[peer].ip else "";
      var usable := ip != "" && ip in env.usableIps;
      var onSerial := HasPathOn(env, peer, Serial);
      var onLan := HasPathOn(env, peer, Udp) || HasPathOn(env, peer, Tcp);
      if viaSerial then (if env.serialReady then SerialOnly else Unlocked)
      else if known && usable then LanOnly
      else if known && ip == "" && env.serialReady then SerialOnly
      else if known && env.serialReady && ip != "" && !usable && onSerial then SerialOnly
      else if env.serialReady && env.lanReady && onSerial && !onLan then SerialOnly
      else if env.serialReady && env.lanReady && onSerial && known && ip == "" then SerialOnly
      else if env.serialReady && onSerial && !onLan then SerialOnly
      else if env.serialReady && onSerial && (ip == "" || !usable) then SerialOnly
      else if onLan then LanOnly
      else Unlocked
  }

  /** The zone a peer is locked to, said outright: what discovery knows decides, else the cached path. */
  lemma ZoneLock(t: Table, env: Env, hash: Hash)
    ensures var p := DestFor(t.aliases, hash);
            var known := p in env.meta;
            var e := ExpectedZone(t, env, hash);
            var path := if |p| == 32 && p in env.paths then env.paths[p] else NoFamily;
            && (e == SerialOnly <==>
                && !Unresolved(p) && !IsHubPeer(p) && env.serialReady
                && (|| (known && (env.meta[p].viaSerial || env.meta[p].ip == ""))
                    || (path == Serial && !(known && env.meta[p].ip in env.usableIps))))
            && (e == LanOnly <==>
                && !Unresolved(p) && !IsHubPeer(p) && !(known && env.meta[p].viaSerial)
                && (|| (known && env.meta[p].ip != "" && env.meta[p].ip in env.usableIps)
                    || (&& (path == Udp || path == Tcp)
                        && !(known && env.meta[p].ip == "" && env.serialReady))))
  {
  }

  // ----- identity and zone tests -----

  predicate IsSelf(env: Env, h: Hash) {
    h in env.selfHashes
  }

  /** _link_remote_peer_hash: the identified remote, else the cached peer, else "". */
  function RemotePeer(t: Table, env: Env, l: LinkId): Hash {
    var ident := Info(env, l).identityDest;
    if !Unresolved(ident) && !IsSelf(env, ident) then DestFor(t.aliases, ident)
    else if l in t.hashOf.vals && !Unresolved(t.hashOf.vals[l]) && !IsSelf(env, t.hashOf.vals[l]) then
      DestFor(t.aliases, t.hashOf.vals[l])
    else ""
  }

  predicate FiledUnder(t: Table, l: LinkId, peer: Hash) {
    || (Plain(peer) in t.byPeer.vals && t.byPeer.vals[Plain(peer)] == l)
    || exists k :: k in t.byPeer.vals && t.byPeer.vals[k] == l && Equivalent(t.aliases, KeyText(k), peer)
  }

  predicate Matches(t: Table, env: Env, l: LinkId, hash: Hash) {
    var peer := DestFor(t.aliases, hash);
    && !Unresolved(peer)
    && if RemotePeer(t, env, l) != "" then Equivalent(t.aliases, RemotePeer(t, env, l), peer)
       else FiledUnder(t, l, peer)
  }

  predicate Acceptable(t: Table, env: Env, l: LinkId, hash: Hash) {
    var peer := DestFor(t.aliases, hash);
    var fam := Info(env, l).family;
    if Unresolved(peer) then fam == Serial
    else
      match ExpectedZone(t, env, peer)
      case Unlocked => true
      case SerialOnly => fam == Serial
      case LanOnly => IsLanFamily(fam)
  }

  predicate Usable(t: Table, env: Env, l: LinkId, peer: Hash) {
    Matches(t, env, l, peer) && Acceptable(t, env, l, peer)
  }

  predicate PeerUsesHub(t: Table, env: Env, hash: Hash) {
    || IsHubPeer(hash)
    || (&& env.hubOn
        && |DestFor(t.aliases, hash)| == 32
        && env.hubServer != ""
        && Equivalent(t.aliases, DestFor(t.aliases, hash), env.hubServer))
  }

  /** Direct traffic stays off the hub's TCP link. */
  predicate OffHub(t: Table, env: Env, l: LinkId, peer: Hash) {
    !(env.hubOn && !PeerUsesHub(t, env, peer) && Info(env, l).hubTransport)
  }

  // ----- lists of links -----

  function First(s: seq<LinkId>, p: LinkId -> bool): (r: Option<LinkId>)
    ensures r.None? ==> forall l :: l in s ==> !p(l)
    ensures r.Some? ==> r.value in s && p(r.value)
  {
    if s == [] then None else if p(s[0]) then Some(s[0]) else First(s[1..], p)
  }

  /** Keeps the first occurrence of every element. */
  function Dedupe(s: seq<LinkId>): (r: seq<LinkId>)
    ensures Distinct(r)
    ensures forall l :: l in r <==> l in s
  {
    if s == [] then []
    else
      var front := Dedupe(s[..|s| - 1]);
      assert s == s[..|s| - 1] + [s[|s| - 1]];
      if s[|s| - 1] in front then front else front + [s[|s| - 1]]
  }

  /** Links whose cached hash is the peer's, in cache order. */
  function CachedFor(t: Table, peer: Hash): (r: seq<LinkId>)
    ensures forall l :: l in r <==>
              l in t.hashOf.vals && l in t.links && Equivalent(t.aliases, t.hashOf.vals[l], peer)
  {
    Filter(t.hashOf.keys, l => l in t.hashOf.vals && l in t.links && Equivalent(t.aliases, t.hashOf.vals[l], peer))
  }

  function ActiveFor(t: Table, env: Env, peer: Hash): (r: seq<LinkId>)
    ensures forall l :: l in r <==> l in CachedFor(t, peer) && IsActive(env, l)
  {
    Filter(CachedFor(t, peer), l => IsActive(env, l))
  }

  function KeysFor(t: Table, peer: Hash): (r: seq<LinkKey>)
    ensures forall k :: k in r <==> k in t.byPeer.vals && Equivalent(t.aliases, k.peer, peer)
  {
    Filter(t.byPeer.keys, (k: LinkKey) => k in t.byPeer.vals && Equivalent(t.aliases, k.peer, peer))
  }

  function Registered(t: Table, keys: seq<LinkKey>): (r: seq<LinkId>)
    requires forall k :: k in keys ==> k in t.byPeer.vals
    ensures |r| == |keys| && forall i :: 0 <= i < |r| ==> r[i] == t.byPeer.vals[keys[i]]
  {
    if keys == [] then [] else [t.byPeer.vals[keys[0]]] + Registered(t, keys[1..])
  }

  /** _links_for_peer. */
  function LinksFor(t: Table, env: Env, hash: Hash): (r: seq<LinkId>)
    ensures Distinct(r)
  {
    var peer := DestFor(t.aliases, hash);
    if Unresolved(peer) then [] else Dedupe(ActiveFor(t, env, peer) + Registered(t, KeysFor(t, peer)))
  }

  /** The links of a peer: cached for it, live and still listed, or registered under a key of it. */
  lemma LinksForMeaning(t: Table, env: Env, hash: Hash, l: LinkId)
    ensures var peer := DestFor(t.aliases, hash);
            l in LinksFor(t, env, hash) <==>
              && !Unresolved(peer)
              && (|| (&& l in env.status && env.status[l] == Active
                      && l in t.links && l in t.hashOf.vals && Equivalent(t.aliases, t.hashOf.vals[l], peer))
                  || (exists k :: k in t.byPeer.vals && t.byPeer.vals[k] == l && Equivalent(t.aliases, k.peer, peer)))
  {
    hide Equivalent, Unresolved, DestFor, Dedupe;
    var peer := DestFor(t.aliases, hash);
    var ks := KeysFor(t, peer);
    var registered := Registered(t, ks);
    if k :| k in t.byPeer.vals && t.byPeer.vals[k] == l && Equivalent(t.aliases, k.peer, peer) {
      assert k in ks;
      var i :| 0 <= i < |ks| && ks[i] == k;
      assert registered[i] == l;
    }
    if l in registered {
      var i :| 0 <= i < |registered| && registered[i] == l;
      assert ks[i] in ks;
    }
  }

  /** _link_for_peer. */
  function LinkForPeer(t: Table, env: Env, hash: Hash, transport: Option<Transport>): (r: Option<LinkId>)
    ensures r.Some? ==> Matches(t, env, r.value, DestFor(t.aliases, hash))
  {
    var peer := DestFor(t.aliases, hash);
    if Unresolved(peer) then None
    else if transport.Some? then
      var l := Get(t.byPeer, Zoned(DestFor(t.aliases, peer), transport.value));
      if l.Some? && Matches(t, env, l.value, peer) then l else None
    else
      var direct := Get(t.byPeer, Plain(peer));
      if direct.Some? && Matches(t, env, direct.value, peer) then direct
      else
        var filed := First(Registered(t, KeysFor(t, peer)), l => Matches(t, env, l, peer));
        if filed.Some? then filed else First(CachedFor(t, peer), l => Matches(t, env, l, peer))
  }

  // ----- scores -----

  function PathScore(env: Env, l: LinkId): nat {
    var i := Info(env, l);
    if !i.healthy then 0
    else
      var base: nat := match i.family
        case Serial => if env.lanReachable then 45 else 85
        case Tcp => 95
        case Lan => 100
        case Udp => 80
        case _ => 50;
      if i.rttScore.Some? && i.rttScore.value > base then i.rttScore.value else base
  }

  function FamilyRank(expected: Zone, f: Family): nat {
    match expected
    case SerialOnly => if f == Serial then 1 else 0
    case LanOnly => (match f case Tcp => 3 case Lan => 2 case Udp => 1 case _ => 0)
    case Unlocked => (match f case Tcp => 4 case Lan => 3 case Udp => 2 case Serial => 1 case _ => 0)
  }

  function Score(t: Table, env: Env, peer: Hash, l: LinkId): nat {
    PathScore(env, l) + 5 * FamilyRank(ExpectedZone(t, env, peer), Info(env, l).family)
  }

  /** The earliest of the highest-scoring elements. */
  function FirstMax(s: seq<LinkId>, score: LinkId -> nat): (r: Option<LinkId>)
    ensures r.None? <==> s == []
    ensures r.Some? ==> r.value in s
  {
    if s == [] then None
    else
      var best := FirstMax(s[..|s| - 1], score);
      if best.None? || score(s[|s| - 1]) > score(best.value) then Some(s[|s| - 1]) else best
  }

  ghost predicate IsFirstMax(s: seq<LinkId>, score: LinkId -> nat, i: int) {
    && 0 <= i < |s|
    && (forall j :: 0 <= j < |s| ==> score(s[j]) <= score(s[i]))
    && (forall j :: 0 <= j < i ==> score(s[j]) < score(s[i]))
  }

  lemma {:induction false} FirstMaxIsBest(s: seq<LinkId>, score: LinkId -> nat) returns (i: int)
    requires s != []
    ensures IsFirstMax(s, score, i) && FirstMax(s, score) == Some(s[i])
  {
    var n := |s| - 1;
    i := n;
    if n > 0 {
      var j := FirstMaxIsBest(s[..n], score);
      assert forall k :: 0 <= k < n ==> s[..n][k] == s[k];
      if score(s[n]) <= score(s[j]) {
        i := j;
      }
    }
  }

  // ----- the best link for a send -----

  function OutgoingPeer(t: Table, hash: Hash): Hash {
    DestFor(t.aliases, if hash != "" then hash else if t.activePeer != "" then t.activePeer else t.sessionPeer)
  }

  predicate Healthy(env: Env, l: LinkId) {
    Info(env, l).healthy
  }

  predicate Eligible(t: Table, env: Env, peer: Hash, l: LinkId) {
    Usable(t, env, l, peer) && OffHub(t, env, l, peer)
  }

  function SessionLink(t: Table, env: Env, peer: Hash): (r: Option<LinkId>)
    ensures r.Some? ==> Usable(t, env, r.value, peer) && Healthy(env, r.value)
  {
    if t.sessionPeer != "" && t.sessionTransport.Some? && Equivalent(t.aliases, peer, t.sessionPeer) then
      var l := LinkForPeer(t, env, peer, t.sessionTransport);
      if l.Some? && Healthy(env, l.value) && Usable(t, env, l.value, peer) then l else None
    else None
  }

  /** The test of the scoring loop. */
  function Good(t: Table, env: Env, peer: Hash): LinkId -> bool {
    l => Healthy(env, l) && Eligible(t, env, peer, l)
  }

  /** The test of the fallback loop. */
  function Fine(t: Table, env: Env, peer: Hash): LinkId -> bool {
    l => IsActive(env, l) && Eligible(t, env, peer, l)
  }

  function ScoreFor(t: Table, env: Env, peer: Hash): LinkId -> nat {
    l => Score(t, env, peer, l)
  }

  /** Best of the good ones, else the first fine one. */
  function Choose(links: seq<LinkId>, good: LinkId -> bool, fine: LinkId -> bool, score: LinkId -> nat): (r: Option<LinkId>)
    ensures r.Some? ==> r.value in links && (good(r.value) || fine(r.value))
    ensures r.None? ==> forall l :: l in links ==> !good(l) && !fine(l)
  {
    var best := FirstMax(Filter(links, good), score);
    if best.Some? then
      assert best.value in Filter(links, good);
      best
    else First(links, fine)
  }

  lemma FirstMaxSnoc(s: seq<LinkId>, x: LinkId, score: LinkId -> nat)
    ensures var best := FirstMax(s, score);
            FirstMax(s + [x], score) == if best.None? || score(x) > score(best.value) then Some(x) else best
  {
    assert (s + [x])[..|s|] == s;
  }

  /** The scoring loop, with the best link and score so far. */
  method ScoringLoop(links: seq<LinkId>, good: LinkId -> bool, score: LinkId -> nat) returns (best: Option<LinkId>)
    ensures best == FirstMax(Filter(links, good), score)
  {
    best := None;
    var bestScore: int := -1;
    for i := 0 to |links|
      invariant best == FirstMax(Filter(links[..i], good), score)
      invariant bestScore == if best.None? then -1 else score(best.value)
    {
      assert links[..i + 1] == links[..i] + [links[i]];
      FilterSnoc(links[..i], links[i], good);
      if good(links[i]) {
        FirstMaxSnoc(Filter(links[..i], good), links[i], score);
        if score(links[i]) > bestScore {
          best, bestScore := Some(links[i]), score(links[i]);
        }
      }
    }
    assert links[..|links|] == links;
  }

  /** The fallback loop. */
  method FallbackLoop(links: seq<LinkId>, fine: LinkId -> bool) returns (r: Option<LinkId>)
    ensures r == First(links, fine)
  {
    var j := 0;
    while j < |links|
      invariant 0 <= j <= |links| && First(links, fine) == First(links[j..], fine)
    {
      if fine(links[j]) {
        return Some(links[j]);
      }
      j := j + 1;
    }
    return None;
  }

  /** When any link is good the choice is good, none scores higher, and ties go to the first. */
  lemma ChooseIsBest(links: seq<LinkId>, good: LinkId -> bool, fine: LinkId -> bool, score: LinkId -> nat) returns (i: int)
    requires exists l :: l in links && good(l)
    ensures IsFirstMax(Filter(links, good), score, i)
    ensures Choose(links, good, fine, score) == Some(Filter(links, good)[i])
  {
    i := FirstMaxIsBest(Filter(links, good), score);
  }

  /** _best_outgoing_link: the session's link, else the best healthy one, else any active one, else a filed one. */
  function BestOutgoing(t: Table, env: Env, hash: Hash): Option<LinkId> {
    var peer := OutgoingPeer(t, hash);
    if Unresolved(peer) then None
    else
      var session := SessionLink(t, env, peer);
      if session.Some? then session
      else
        var chosen := Choose(LinksFor(t, env, peer), Good(t, env, peer), Fine(t, env, peer), ScoreFor(t, env, peer));
        if chosen.Some? then chosen else LinkForPeer(t, env, peer, None)
  }

  method BestOutgoingLink(t: Table, env: Env, hash: Hash) returns (r: Option<LinkId>)
    ensures r == BestOutgoing(t, env, hash)
  {
    var peer := OutgoingPeer(t, hash);
    if Unresolved(peer) {
      return None;
    }
    r := SessionLink(t, env, peer);
    if r.None? {
      var links := LinksFor(t, env, peer);
      r := ScoringLoop(links, Good(t, env, peer), ScoreFor(t, env, peer));
      if r.None? {
        r := FallbackLoop(links, Fine(t, env, peer));
        if r.None? {
          r := LinkForPeer(t, env, peer, None);
        }
      }
    }
  }

  lemma BestOutgoingUsable(t: Table, env: Env, peer: Hash, l: LinkId)
    requires OutgoingPeer(t, peer) == peer == DestFor(t.aliases, peer)
    requires l in LinksFor(t, env, peer) && Good(t, env, peer)(l)
    ensures !Unresolved(peer) && BestOutgoing(t, env, peer).Some?
    ensures Acceptable(t, env, BestOutgoing(t, env, peer).value, peer)
  {
    var links, good, fine := LinksFor(t, env, peer), Good(t, env, peer), Fine(t, env, peer);
    var chosen := Choose(links, good, fine, ScoreFor(t, env, peer));
    assert chosen.Some?;
  }

  lemma BestOutgoingMatches(t: Table, env: Env, peer: Hash)
    requires OutgoingPeer(t, peer) == peer == DestFor(t.aliases, peer)
    requires BestOutgoing(t, env, peer).Some?
    ensures Matches(t, env, BestOutgoing(t, env, peer).value, peer)
  {
  }

  // ----- the send decision -----

  function FindActive(t: Table, env: Env, hash: Hash): (r: Option<LinkId>)
    ensures r.Some? ==> IsActive(env, r.value) && r.value in t.links
  {
    var target := DestFor(t.aliases, hash);
    if Unresolved(target) then None
    else
      First(t.links, l =>
        && IsActive(env, l)
        && !Unresolved(FoundPeer(t, env, l))
        && Equivalent(t.aliases, FoundPeer(t, env, l), target))
  }

  function FoundPeer(t: Table, env: Env, l: LinkId): Hash {
    var ident := Info(env, l).identityDest;
    if !Unresolved(ident) && !IsSelf(env, ident) then ident
    else if l in t.hashOf.vals then DestFor(t.aliases, t.hashOf.vals[l])
    else ""
  }

  /** _peer_link_active. */
  predicate PeerLinkActive(t: Table, env: Env, hash: Hash) {
    var peer := DestFor(t.aliases, hash);
    var filed := LinkForPeer(t, env, peer, None);
    || (filed.Some? && IsActive(env, filed.value) && Usable(t, env, filed.value, peer))
    || (var found := FindActive(t, env, hash); found.Some? && Usable(t, env, found.value, peer))
  }

  /** _queue_send_link. */
  function QueueSendLink(t: Table, env: Env, hash: Hash, hint: Option<LinkId>): (r: Option<LinkId>)
    ensures r.Some? ==> Acceptable(t, env, r.value, DestFor(t.aliases, hash))
  {
    var peer := DestFor(t.aliases, hash);
    if Unresolved(peer) then None
    else if hint.Some? && Usable(t, env, hint.value, peer) then hint
    else
      var best := BestOutgoing(t, env, peer);
      if best.Some? && Acceptable(t, env, best.value, peer) then best
      else
        var filed := LinkForPeer(t, env, peer, None);
        if filed.Some? && Acceptable(t, env, filed.value, peer) then filed else None
  }

  /** The link send_message transmits on, None when it refuses. */
  function SendLink(t: Table, env: Env, target: Hash, hint: Option<LinkId>): Option<LinkId> {
    var peer := OutgoingPeer(t, target);
    if Unresolved(peer) || !PeerLinkActive(t, env, peer) then None
    else
      var l := QueueSendLink(t, env, peer, hint);
      if l.None? || !Matches(t, env, l.value, peer) then None
      else if RemotePeer(t, env, l.value) != "" && !Equivalent(t.aliases, RemotePeer(t, env, l.value), peer) then None
      else if Healthy(env, l.value) then l
      else
        var alt := QueueSendLink(t, env, peer, None);
        if alt.Some? && alt != l && Matches(t, env, alt.value, peer) && Healthy(env, alt.value) then alt else None
  }

  /** What a packet's link must satisfy for its target. */
  ghost predicate SafeFor(t: Table, env: Env, l: LinkId, peer: Hash) {
    && !Unresolved(DestFor(t.aliases, peer))
    && Matches(t, env, l, peer)
    && Acceptable(t, env, l, peer)
    && (RemotePeer(t, env, l) != "" ==> Equivalent(t.aliases, RemotePeer(t, env, l), DestFor(t.aliases, peer)))
    && ZoneRespected(t, env, l, peer)
  }

  /** A serial-only peer is never reached over LAN, nor a LAN peer over serial. */
  ghost predicate ZoneRespected(t: Table, env: Env, l: LinkId, peer: Hash) {
    var zone := ExpectedZone(t, env, DestFor(t.aliases, peer));
    && (zone == SerialOnly ==> Info(env, l).family == Serial)
    && (zone == LanOnly ==> IsLanFamily(Info(env, l).family))
  }

  lemma UsableIsSafe(t: Table, env: Env, l: LinkId, peer: Hash)
    requires Consistent(t.aliases) && Usable(t, env, l, peer)
    ensures SafeFor(t, env, l, peer)
  {
  }

  /** Whatever the queue picks for a peer belongs to that peer and respects its zone. */
  lemma QueueSendLinkSafe(t: Table, env: Env, hash: Hash, hint: Option<LinkId>)
    requires Consistent(t.aliases) && QueueSendLink(t, env, hash, hint).Some?
    ensures SafeFor(t, env, QueueSendLink(t, env, hash, hint).value, hash)
  {
    var l := QueueSendLink(t, env, hash, hint).value;
    var peer := DestFor(t.aliases, hash);
    assert OutgoingPeer(t, peer) == peer;
    if BestOutgoing(t, env, peer) == Some(l) {
      BestOutgoingMatches(t, env, peer);
    }
    UsableIsSafe(t, env, l, peer);
  }

  /** No cross-talk: every link SendLink chooses is healthy, the target's own, and in its zone. */
  lemma SendLinkSafe(t: Table, env: Env, target: Hash, hint: Option<LinkId>)
    requires Consistent(t.aliases) && SendLink(t, env, target, hint).Some?
    ensures var l := SendLink(t, env, target, hint).value;
            SafeFor(t, env, l, OutgoingPeer(t, target)) && Healthy(env, l)
  {
    var peer := OutgoingPeer(t, target);
    var l := SendLink(t, env, target, hint).value;
    assert DestFor(t.aliases, peer) == peer;
    UsableIsSafe(t, env, l, peer);
  }

  // ----- call signalling and media -----

  /** The link send_call_signaling transmits on. */
  function CallLink(t: Table, env: Env, target: Hash, hint: Option<LinkId>): Option<LinkId> {
    var peer := OutgoingPeer(t, target);
    if peer == "" || !PeerLinkActive(t, env, peer) then None
    else
      var l := QueueSendLink(t, env, peer, hint);
      if l.Some? && Matches(t, env, l.value, peer) then l else None
  }

  function MediaScore(env: Env): LinkId -> nat {
    l => match Info(env, l).family
      case Udp => 100
      case Lan => 90
      case Tcp => 50
      case Serial => 20
      case _ => 10
  }

  function MediaGood(t: Table, env: Env, peer: Hash): LinkId -> bool {
    l => Healthy(env, l) && Usable(t, env, l, peer)
  }

  /** _queue_media_link: a usable hint, else the healthy link best for real-time media, else any send link. */
  function MediaLink(t: Table, env: Env, hash: Hash, hint: Option<LinkId>): Option<LinkId> {
    var peer := DestFor(t.aliases, hash);
    if Unresolved(peer) then None
    else if hint.Some? && Usable(t, env, hint.value, peer) then hint
    else
      var best := FirstMax(Filter(LinksFor(t, env, peer), MediaGood(t, env, peer)), MediaScore(env));
      if best.Some? then best else QueueSendLink(t, env, peer, hint)
  }

  method QueueMediaLink(t: Table, env: Env, hash: Hash, hint: Option<LinkId>) returns (r: Option<LinkId>)
    ensures r == MediaLink(t, env, hash, hint)
  {
    hide LinksFor, QueueSendLink, Matches, Acceptable, FirstMax, Filter;
    var peer := DestFor(t.aliases, hash);
    if Unresolved(peer) {
      return None;
    }
    if hint.Some? && Usable(t, env, hint.value, peer) {
      return hint;
    }
    r := ScoringLoop(LinksFor(t, env, peer), MediaGood(t, env, peer), MediaScore(env));
    if r.None? {
      r := QueueSendLink(t, env, peer, hint);
    }
  }

  /** The link send_media_packet transmits on. */
  function MediaSendLink(t: Table, env: Env, target: Hash, hint: Option<LinkId>): Option<LinkId> {
    var peer := OutgoingPeer(t, target);
    if peer == "" || !PeerLinkActive(t, env, peer) then None
    else
      var l := MediaLink(t, env, peer, hint);
      if l.Some? && Matches(t, env, l.value, peer) then l else None
  }

  /** Call signalling and media keep to the target's own links and zone as text does. */
  lemma CallAndMediaSafe(t: Table, env: Env, target: Hash, hint: Option<LinkId>, l: LinkId)
    requires Consistent(t.aliases)
    requires CallLink(t, env, target, hint) == Some(l) || MediaSendLink(t, env, target, hint) == Some(l)
    ensures SafeFor(t, env, l, OutgoingPeer(t, target))
  {
    hide QueueSendLink, LinksFor, Matches, Acceptable, PeerLinkActive;
    var peer := OutgoingPeer(t, target);
    assert DestFor(t.aliases, peer) == peer;
    UsableIsSafe(t, env, l, peer);
  }

  /** Without a usable hint, media goes over a healthy usable link that no other outscores, if there is one. */
  lemma MediaLinkIsBest(t: Table, env: Env, hash: Hash, l: LinkId)
    requires var peer := DestFor(t.aliases, hash);
             !Unresolved(peer) && l in LinksFor(t, env, peer) && MediaGood(t, env, peer)(l)
    ensures var peer := DestFor(t.aliases, hash);
            var r := MediaLink(t, env, hash, None);
            && r.Some? && r.value in LinksFor(t, env, peer) && MediaGood(t, env, peer)(r.value)
            && MediaScore(env)(l) <= MediaScore(env)(r.value)
  {
    hide LinksFor, QueueSendLink, Acceptable, Healthy, MediaScore, RemotePeer, FiledUnder;
    var peer := DestFor(t.aliases, hash);
    var good := Filter(LinksFor(t, env, peer), MediaGood(t, env, peer));
    assert l in good;
    var i := FirstMaxIsBest(good, MediaScore(env));
    var j :| 0 <= j < |good| && good[j] == l;
    assert good[i] in good;
  }

  /** The queue finds a link whenever a healthy, matching, acceptable, non-hub one is listed for the peer. */
  lemma QueueSendLinkFinds(t: Table, env: Env, hash: Hash, hint: Option<LinkId>, l: LinkId)
    requires Consistent(t.aliases)
    requires l in LinksFor(t, env, DestFor(t.aliases, hash)) && Good(t, env, DestFor(t.aliases, hash))(l)
    ensures QueueSendLink(t, env, hash, hint).Some?
  {
    BestOutgoingUsable(t, env, DestFor(t.aliases, hash), l);
  }

  /** With hash roles kept apart, the packet's remote party and its target share one destination. */
  lemma RemoteIsTarget(t: Table, env: Env, target: Hash, hint: Option<LinkId>)
    requires Consistent(t.aliases) && NoDoubleRole(t.aliases) && SendLink(t, env, target, hint).Some?
    ensures var remote := RemotePeer(t, env, SendLink(t, env, target, hint).value);
            remote == "" || DestFor(t.aliases, remote) == OutgoingPeer(t, target)
  {
    SendLinkSafe(t, env, target, hint);
    EquivalentIsKernelIff(t.aliases);
    var remote := RemotePeer(t, env, SendLink(t, env, target, hint).value);
    if remote != "" {
      assert SameDest(t.aliases, remote, OutgoingPeer(t, target));
    }
  }
}
