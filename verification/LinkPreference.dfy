/** Whose a link is and which of several is taken, said of interface families, health and the tables. */
module LinkPreference {
  import opened Collections
  import opened Aliases
  import opened LinkChoice

  // ----- whose link -----

  predicate Known(env: Env, h: Hash) {
    h != "" && h != UNKNOWN && h !in env.selfHashes
  }

  /** A registration key as a hash: the transport suffix becomes part of it. */
  function AsHash(k: LinkKey): Hash {
    if k.Plain? then k.peer else k.peer + (if k.transport == OverSerial then "serial" else "lan")
  }

  /** A link is the peer's by its identity, else by its cached hash, and only a link with neither by what it is filed under. */
  lemma MatchesIff(t: Table, env: Env, l: LinkId, hash: Hash)
    ensures var peer, ident := DestFor(t.aliases, hash), Info(env, l).identityDest;
            var cached := if l in t.hashOf.vals then t.hashOf.vals[l] else "";
            Matches(t, env, l, hash) <==>
              && peer != "" && peer != UNKNOWN
              && if Known(env, ident) then Equivalent(t.aliases, DestFor(t.aliases, ident), peer)
                 else if Known(env, cached) then Equivalent(t.aliases, DestFor(t.aliases, cached), peer)
                 else exists k :: k in t.byPeer.vals && t.byPeer.vals[k] == l
                                  && (k == Plain(peer) || Equivalent(t.aliases, AsHash(k), peer))
  {
    hide Equivalent;
    DestKept(t.aliases, Info(env, l).identityDest);
    if l in t.hashOf.vals {
      DestKept(t.aliases, t.hashOf.vals[l]);
    }
    forall k: LinkKey
      ensures KeyText(k) == AsHash(k)
    {
    }
  }

  lemma DestKept(m: AliasMap, h: Hash)
    ensures h != "" ==> DestFor(m, h) != ""
  {
  }

  /** A link may carry a peer's traffic when it is on the peer's side: serial for a peer locked to serial or not known at
      all, a LAN family for one locked to LAN, any for one that is not locked. */
  lemma AcceptableIff(t: Table, env: Env, l: LinkId, hash: Hash)
    ensures var peer, fam := DestFor(t.aliases, hash), Info(env, l).family;
            var zone := ExpectedZone(t, env, peer);
            Acceptable(t, env, l, hash) <==>
              && (peer == "" || peer == UNKNOWN || zone == SerialOnly ==> fam == Serial)
              && (peer != "" && peer != UNKNOWN && zone == LanOnly ==> fam in {Udp, Lan, Tcp})
  {
    hide DestFor;
    NoZone(t, env, DestFor(t.aliases, hash));
  }

  lemma NoZone(t: Table, env: Env, peer: Hash)
    ensures Unresolved(DestFor(t.aliases, peer)) ==> ExpectedZone(t, env, peer) == Unlocked
  {
    hide DestFor;
  }

  /** While a hub role is on, a link of the hub's transport is for the group and for the hub server alone. */
  lemma OffHubIff(t: Table, env: Env, l: LinkId, peer: Hash)
    ensures var dest := DestFor(t.aliases, peer);
            var isServer := |dest| == 32 && env.hubServer != "" && Equivalent(t.aliases, dest, env.hubServer);
            !OffHub(t, env, l, peer) <==> env.hubOn && Info(env, l).hubTransport && peer != HUB_GROUP_PEER && !isServer
  {
    hide Equivalent, DestFor;
  }

  // ----- which link is found -----

  /** The links that some key of the peer names, or that are cached for it and still listed. */
  predicate Reachable(t: Table, peer: Hash, l: LinkId) {
    || (exists k :: k in t.byPeer.vals && t.byPeer.vals[k] == l && Equivalent(t.aliases, k.peer, peer))
    || (l in t.hashOf.vals && l in t.links && Equivalent(t.aliases, t.hashOf.vals[l], peer))
  }

  lemma RegisteredHas(t: Table, peer: Hash, l: LinkId)
    ensures l in Registered(t, KeysFor(t, peer)) <==>
              exists k :: k in t.byPeer.vals && t.byPeer.vals[k] == l && Equivalent(t.aliases, k.peer, peer)
  {
    hide Equivalent;
    var ks := KeysFor(t, peer);
    var rs := Registered(t, ks);
    if l in rs {
      var i :| 0 <= i < |rs| && rs[i] == l;
      assert ks[i] in ks;
    }
    if k :| k in t.byPeer.vals && t.byPeer.vals[k] == l && Equivalent(t.aliases, k.peer, peer) {
      assert k in ks;
      var i :| 0 <= i < |ks| && ks[i] == k;
      assert rs[i] == l;
    }
  }

  /** Looking for a peer's link: with a transport, only the one filed under both; without, the one filed under the peer
      itself comes first, then others filed for it, then cached ones. None is found only when none of them matches. */
  lemma FoundIff(t: Table, env: Env, hash: Hash, transport: Option<Transport>)
    ensures var peer, r := DestFor(t.aliases, hash), LinkForPeer(t, env, hash, transport);
            var key := if transport.Some? then Zoned(DestFor(t.aliases, peer), transport.value) else Plain(peer);
            if peer == "" || peer == UNKNOWN then r == None
            else if key in t.byPeer.vals && Matches(t, env, t.byPeer.vals[key], peer) then r == Some(t.byPeer.vals[key])
            else if transport.Some? then r == None
            else
              && (r == None <==> !exists l :: Reachable(t, peer, l) && Matches(t, env, l, peer))
              && (r.Some? ==> Reachable(t, peer, r.value) && Matches(t, env, r.value, peer))
              && (r.Some? && (exists k :: k in t.byPeer.vals && Equivalent(t.aliases, k.peer, peer)
                                          && Matches(t, env, t.byPeer.vals[k], peer)) ==>
                    exists k :: k in t.byPeer.vals && Equivalent(t.aliases, k.peer, peer) && t.byPeer.vals[k] == r.value)
  {
    hide Equivalent, Matches, DestFor, First, Registered, KeysFor, CachedFor;
    var peer := DestFor(t.aliases, hash);
    SearchIff(t, env, peer);
    hide Reachable;
  }

  /** The search once nothing is filed under the peer itself: registered links first, then cached ones. */
  function Search(t: Table, env: Env, peer: Hash): Option<LinkId> {
    var filed := First(Registered(t, KeysFor(t, peer)), l => Matches(t, env, l, peer));
    if filed.Some? then filed else First(CachedFor(t, peer), l => Matches(t, env, l, peer))
  }

  lemma SearchIff(t: Table, env: Env, peer: Hash)
    ensures var r := Search(t, env, peer);
            && (r == None <==> !exists l :: Reachable(t, peer, l) && Matches(t, env, l, peer))
            && (r.Some? ==> Reachable(t, peer, r.value) && Matches(t, env, r.value, peer))
            && (r.Some? && (exists k :: k in t.byPeer.vals && Equivalent(t.aliases, k.peer, peer)
                                        && Matches(t, env, t.byPeer.vals[k], peer)) ==>
                  exists k :: k in t.byPeer.vals && Equivalent(t.aliases, k.peer, peer) && t.byPeer.vals[k] == r.value)
  {
    hide Equivalent, Matches, First, Registered, KeysFor, CachedFor;
    var rs := Registered(t, KeysFor(t, peer));
    forall l
      ensures l in rs <==> exists k :: k in t.byPeer.vals && t.byPeer.vals[k] == l && Equivalent(t.aliases, k.peer, peer)
    {
      RegisteredHas(t, peer, l);
    }
    if k :| k in t.byPeer.vals && Equivalent(t.aliases, k.peer, peer) && Matches(t, env, t.byPeer.vals[k], peer) {
      assert t.byPeer.vals[k] in rs;
    }
  }

  lemma {:induction false} DedupeKeepsPrefix(a: seq<LinkId>, b: seq<LinkId>)
    requires Distinct(a)
    ensures a <= Dedupe(a + b)
    decreases |b|
  {
    if b == [] {
      DedupeFixed(a);
      assert a + b == a;
    } else {
      var n := |b| - 1;
      DedupeKeepsPrefix(a, b[..n]);
      assert (a + b)[..|a + b| - 1] == a + b[..n];
    }
  }

  lemma {:induction false} DedupeFixed(a: seq<LinkId>)
    requires Distinct(a)
    ensures Dedupe(a) == a
    decreases |a|
  {
    if a != [] {
      DedupeFixed(a[..|a| - 1]);
      assert a == a[..|a| - 1] + [a[|a| - 1]];
    }
  }

  /** The list the loops run over begins with the live cached links, in cache order. */
  lemma CachedComeFirst(t: Table, env: Env, hash: Hash)
    requires !Unresolved(DestFor(t.aliases, hash))
    ensures var live := Filter(t.hashOf.keys, (l: LinkId) =>
              && l in t.links && l in t.hashOf.vals && Equivalent(t.aliases, t.hashOf.vals[l], DestFor(t.aliases, hash))
              && l in env.status && env.status[l] == Active);
            live <= LinksFor(t, env, hash)
  {
    hide Equivalent, DestFor, Dedupe, Filter;
    var peer := DestFor(t.aliases, hash);
    LiveCached(t, env, peer);
    FilterDistinct(t.hashOf.keys, (l: LinkId) =>
      && l in t.links && l in t.hashOf.vals && Equivalent(t.aliases, t.hashOf.vals[l], peer)
      && l in env.status && env.status[l] == Active);
    DedupeKeepsPrefix(ActiveFor(t, env, peer), Registered(t, KeysFor(t, peer)));
  }

  lemma LiveCached(t: Table, env: Env, peer: Hash)
    ensures ActiveFor(t, env, peer) == Filter(t.hashOf.keys, (l: LinkId) =>
              && l in t.links && l in t.hashOf.vals && Equivalent(t.aliases, t.hashOf.vals[l], peer)
              && l in env.status && env.status[l] == Active)
  {
    hide Equivalent;
    FilterBoth(t.hashOf.keys, l => l in t.hashOf.vals && l in t.links && Equivalent(t.aliases, t.hashOf.vals[l], peer),
               l => IsActive(env, l), (l: LinkId) =>
      && l in t.links && l in t.hashOf.vals && Equivalent(t.aliases, t.hashOf.vals[l], peer)
      && l in env.status && env.status[l] == Active);
  }

  lemma FilterBoth(s: seq<LinkId>, p: LinkId -> bool, q: LinkId -> bool, both: LinkId -> bool)
    requires forall l :: l in s ==> (both(l) <==> p(l) && q(l))
    ensures Filter(Filter(s, p), q) == Filter(s, both)
  {
    var and := (x: LinkId) => p(x) && q(x);
    FilterTwice(s, p, q);
    FilterSame(s, x => p(x) && q(x), and);
    forall x | x in s
      ensures and(x) == both(x)
    {
      assert both(x) <==> p(x) && q(x);
      assert and(x) == (p(x) && q(x));
    }
    FilterSame(s, and, both);
  }

  // ----- families -----

  /** A healthy link without a measured round trip. */
  predicate Plainly(env: Env, l: LinkId) {
    Info(env, l).healthy && Info(env, l).rttScore.None?
  }

  /** Where a family stands in the order of sends: TCP and LAN first, then UDP, then serial, which is UDP's equal while no
      LAN is reachable and otherwise no better than an unknown family. */
  function Place(env: Env, f: Family): nat {
    match f
    case Tcp | Lan => 0
    case Udp => 1
    case Serial => if env.lanReachable then 2 else 1
    case _ => 2
  }

  /** The score of a healthy link allowed for a peer, in numbers: its family's base, or its round trip's score if that is
      higher, and five points for each place its family holds in the peer's zone. */
  lemma ScoreTable(t: Table, env: Env, peer: Hash, l: LinkId)
    requires peer == DestFor(t.aliases, peer) && !Unresolved(peer) && Acceptable(t, env, l, peer) && Info(env, l).healthy
    ensures var f, zone := Info(env, l).family, ExpectedZone(t, env, peer);
            var base := match f case Lan => 100 case Tcp => 95 case Udp => 80
                                case Serial => if env.lanReachable then 45 else 85
                                case _ => 50;
            var extra := match f case Tcp => 20 case Lan => 15 case Udp => 10 case Serial => 5 case _ => 0;
            var path := if Info(env, l).rttScore.Some? && Info(env, l).rttScore.value > base then Info(env, l).rttScore.value else base;
            Score(t, env, peer, l) == path + (if zone == LanOnly then extra - 5 else extra)
  {
    hide ExpectedZone;
  }

  /** A link nothing is known of is nobody's by identity, never healthy, and carries nothing for a peer locked to a side. */
  lemma UnknownLink(t: Table, env: Env, l: LinkId, peer: Hash)
    requires l !in env.info
    ensures Info(env, l).identityDest == "" && !Info(env, l).healthy && !Good(t, env, peer)(l)
    ensures ExpectedZone(t, env, DestFor(t.aliases, peer)) != Unlocked ==> !Acceptable(t, env, l, peer)
    ensures forall x :: x in env.info ==> Info(env, x) == env.info[x]
  {
    hide ExpectedZone, DestFor;
    NoZone(t, env, DestFor(t.aliases, peer));
  }

  /** Of two healthy links without a measured round trip, both allowed for the peer, the better family scores higher and
      equal families score the same. */
  lemma ScoreFollowsPlace(t: Table, env: Env, peer: Hash, a: LinkId, b: LinkId)
    requires Plainly(env, a) && Plainly(env, b) && peer == DestFor(t.aliases, peer) && !Unresolved(peer)
    requires Acceptable(t, env, a, peer) && Acceptable(t, env, b, peer)
    ensures Score(t, env, peer, a) < Score(t, env, peer, b)
        <==> Place(env, Info(env, a).family) > Place(env, Info(env, b).family)
  {
    hide ExpectedZone;
  }

  /** An unhealthy link scores nothing for its path; a measured round trip can only raise a healthy one's score. */
  lemma RttOnlyRaises(env: Env, l: LinkId, bare: Env)
    requires bare == env.(info := env.info[l := Info(env, l).(rttScore := None)])
    ensures !Info(env, l).healthy ==> PathScore(env, l) == 0
    ensures var r := Info(env, l).rttScore;
            Info(env, l).healthy ==>
              PathScore(env, l) == if r.Some? && r.value > PathScore(bare, l) then r.value else PathScore(bare, l)
  {
  }

  /** Without a preferred session link, a send takes a healthy link of the best family there is for the peer. */
  lemma BestFamilyTaken(t: Table, env: Env, hash: Hash, l: LinkId)
    requires var peer := DestFor(t.aliases, hash);
             && peer == DestFor(t.aliases, peer) && !Unresolved(peer) && SessionLink(t, env, peer) == None
             && l in LinksFor(t, env, peer) && Good(t, env, peer)(l)
             && forall x :: x in LinksFor(t, env, peer) ==> Info(env, x).rttScore.None?
    requires hash != ""
    ensures var r, peer := BestOutgoing(t, env, hash), DestFor(t.aliases, hash);
            && r.Some? && r.value in LinksFor(t, env, peer) && Good(t, env, peer)(r.value)
            && Place(env, Info(env, r.value).family) <= Place(env, Info(env, l).family)
  {
    hide LinksFor, Score, Acceptable, Matches, OffHub, Place, SessionLink, DestFor;
    var peer := DestFor(t.aliases, hash);
    var links, good, fine, score := LinksFor(t, env, peer), Good(t, env, peer), Fine(t, env, peer), ScoreFor(t, env, peer);
    assert l in Filter(links, good);
    var i := ChooseIsBest(links, good, fine, score);
    var goods := Filter(links, good);
    var j :| 0 <= j < |goods| && goods[j] == l;
    assert goods[i] in goods && goods[i] in links;
    ScoreFollowsPlace(t, env, peer, goods[i], l);
  }

  /** For real-time media UDP comes first, then LAN, TCP, serial, and any other family last. */
  function MediaPlace(f: Family): nat {
    match f
    case Udp => 0
    case Lan => 1
    case Tcp => 2
    case Serial => 3
    case _ => 4
  }

  lemma MediaFamilyTaken(t: Table, env: Env, hash: Hash, l: LinkId)
    requires var peer := DestFor(t.aliases, hash);
             !Unresolved(peer) && l in LinksFor(t, env, peer) && MediaGood(t, env, peer)(l)
    ensures var peer, r := DestFor(t.aliases, hash), MediaLink(t, env, hash, None);
            && r.Some? && r.value in LinksFor(t, env, peer)
            && Info(env, r.value).healthy && Matches(t, env, r.value, peer) && Acceptable(t, env, r.value, peer)
            && MediaPlace(Info(env, r.value).family) <= MediaPlace(Info(env, l).family)
  {
    hide LinksFor, Matches, Acceptable, MediaLink;
    MediaLinkIsBest(t, env, hash, l);
  }

  // ----- what comes before the scores -----

  /** A call without a target is for the active peer, and without one for the session's. */
  lemma DefaultTarget(t: Table, hash: Hash)
    ensures OutgoingPeer(t, hash)
         == DestFor(t.aliases, if hash == "" && t.activePeer == "" then t.sessionPeer else if hash == "" then t.activePeer else hash)
  {
  }

  /** The link filed for the session's peer and transport is taken before any other, while it is healthy and the peer's. */
  lemma SessionFirst(t: Table, env: Env, hash: Hash)
    requires var peer := OutgoingPeer(t, hash);
             && !Unresolved(peer) && t.sessionPeer != "" && t.sessionTransport.Some? && Equivalent(t.aliases, peer, t.sessionPeer)
             && var l := LinkForPeer(t, env, peer, t.sessionTransport);
                l.Some? && Info(env, l.value).healthy && Matches(t, env, l.value, peer) && Acceptable(t, env, l.value, peer)
    ensures BestOutgoing(t, env, hash) == LinkForPeer(t, env, OutgoingPeer(t, hash), t.sessionTransport)
  {
    hide LinkForPeer, Matches, Acceptable, Equivalent;
  }

  /** In no other case is there a session link. */
  lemma SessionOnlyThen(t: Table, env: Env, peer: Hash)
    requires SessionLink(t, env, peer).Some?
    ensures t.sessionPeer != "" && t.sessionTransport.Some? && Equivalent(t.aliases, peer, t.sessionPeer)
    ensures SessionLink(t, env, peer) == LinkForPeer(t, env, peer, t.sessionTransport)
  {
    hide LinkForPeer, Matches, Acceptable, Equivalent;
  }

  /** When nothing listed is healthy, a live listed link of the peer's off the hub is taken in list order; when there is
      none of those either, whatever link is found for the peer. */
  lemma FallbackTaken(t: Table, env: Env, hash: Hash)
    requires var peer := OutgoingPeer(t, hash);
             && !Unresolved(peer) && SessionLink(t, env, peer) == None
             && forall l :: l in LinksFor(t, env, peer) ==> !Good(t, env, peer)(l)
    ensures var r, peer := BestOutgoing(t, env, hash), OutgoingPeer(t, hash);
            var live := Filter(LinksFor(t, env, peer), (l: LinkId) =>
              && l in env.status && env.status[l] == Active
              && Matches(t, env, l, peer) && Acceptable(t, env, l, peer) && OffHub(t, env, l, peer));
            r == if live != [] then Some(live[0]) else LinkForPeer(t, env, peer, None)
  {
    hide LinksFor, Matches, Acceptable, OffHub, LinkForPeer, SessionLink, OutgoingPeer, Good;
    var peer := OutgoingPeer(t, hash);
    var links, fine := LinksFor(t, env, peer), Fine(t, env, peer);
    FilterNone(links, Good(t, env, peer));
    FirstOfFilter(links, fine);
    FilterSame(links, fine, (l: LinkId) =>
      && l in env.status && env.status[l] == Active
      && Matches(t, env, l, peer) && Acceptable(t, env, l, peer) && OffHub(t, env, l, peer));
  }

  lemma {:induction false} FirstOfFilter(s: seq<LinkId>, p: LinkId -> bool)
    ensures First(s, p) == if Filter(s, p) == [] then None else Some(Filter(s, p)[0])
    decreases |s|
  {
    if s != [] {
      FirstOfFilter(s[1..], p);
    }
  }

  // ----- the send decision -----

  /** A link that is the peer's own and on its side. */
  predicate Fit(t: Table, env: Env, l: LinkId, peer: Hash) {
    Matches(t, env, l, peer) && Acceptable(t, env, l, peer)
  }

  /** A fitting hint is taken; without one the best link if it is on the peer's side, else the one found for the peer if
      that is. */
  lemma QueueSources(t: Table, env: Env, hash: Hash, hint: Option<LinkId>)
    ensures var peer, r := DestFor(t.aliases, hash), QueueSendLink(t, env, hash, hint);
            var best, found := BestOutgoing(t, env, peer), LinkForPeer(t, env, peer, None);
            if peer == "" || peer == UNKNOWN then r == None
            else if hint.Some? && Fit(t, env, hint.value, peer) then r == hint
            else if best.Some? && Acceptable(t, env, best.value, peer) then r == best
            else r == if found.Some? && Acceptable(t, env, found.value, peer) then found else None
  {
    hide BestOutgoing, LinkForPeer, Matches, Acceptable;
  }

  /** A peer counts as linked exactly when the link found for it is live and fits, or the first live link whose party is
      the peer fits. */
  lemma LinkedIff(t: Table, env: Env, hash: Hash)
    ensures var peer, found := DestFor(t.aliases, hash), LinkForPeer(t, env, DestFor(t.aliases, hash), None);
            var own := Filter(t.links, (l: LinkId) =>
              && l in env.status && env.status[l] == Active
              && var ident := Info(env, l).identityDest;
                 var cached := if l in t.hashOf.vals then DestFor(t.aliases, t.hashOf.vals[l]) else "";
                 var party := if Known(env, ident) then ident else cached;
                 party != "" && party != UNKNOWN && Equivalent(t.aliases, party, peer));
            PeerLinkActive(t, env, hash) <==>
              || (found.Some? && found.value in env.status && env.status[found.value] == Active && Fit(t, env, found.value, peer))
              || (peer != "" && peer != UNKNOWN && own != [] && Fit(t, env, own[0], peer))
  {
    hide LinkForPeer, Matches, Acceptable, Equivalent, DestFor;
    var peer := DestFor(t.aliases, hash);
    var test := (l: LinkId) =>
      && IsActive(env, l)
      && !Unresolved(FoundPeer(t, env, l))
      && Equivalent(t.aliases, FoundPeer(t, env, l), peer);
    FirstOfFilter(t.links, test);
    FirstOfFilter(t.links, l =>
      && IsActive(env, l)
      && !Unresolved(FoundPeer(t, env, l))
      && Equivalent(t.aliases, FoundPeer(t, env, l), peer));
    FilterSame(t.links, (l: LinkId) =>
      && l in env.status && env.status[l] == Active
      && var ident := Info(env, l).identityDest;
         var cached := if l in t.hashOf.vals then DestFor(t.aliases, t.hashOf.vals[l]) else "";
         var party := if Known(env, ident) then ident else cached;
         party != "" && party != UNKNOWN && Equivalent(t.aliases, party, peer), l =>
      && IsActive(env, l)
      && !Unresolved(FoundPeer(t, env, l))
      && Equivalent(t.aliases, FoundPeer(t, env, l), peer));
  }

  lemma QueueMatches(t: Table, env: Env, peer: Hash, hint: Option<LinkId>)
    requires Consistent(t.aliases) && peer == DestFor(t.aliases, peer) && QueueSendLink(t, env, peer, hint).Some?
    ensures Matches(t, env, QueueSendLink(t, env, peer, hint).value, peer)
    ensures var remote := RemotePeer(t, env, QueueSendLink(t, env, peer, hint).value);
            remote == "" || Equivalent(t.aliases, remote, peer)
  {
    hide QueueSendLink;
    QueueSendLinkSafe(t, env, peer, hint);
  }

  lemma OutgoingIsDest(t: Table, hash: Hash)
    requires Consistent(t.aliases)
    ensures OutgoingPeer(t, hash) == DestFor(t.aliases, OutgoingPeer(t, hash))
  {
  }

  /** Of send_message's guards only two can refuse a link found for a linked peer: it goes out on that link while its
      interface is healthy, else on the link found without the hint if that one's is, else not at all. */
  lemma SendTakes(t: Table, env: Env, target: Hash, hint: Option<LinkId>)
    requires Consistent(t.aliases)
    ensures var peer, r := OutgoingPeer(t, target), SendLink(t, env, target, hint);
            var first, other := QueueSendLink(t, env, peer, hint), QueueSendLink(t, env, peer, None);
            if peer == "" || peer == UNKNOWN || !PeerLinkActive(t, env, peer) || first == None then r == None
            else if Info(env, first.value).healthy then r == first
            else r == if other.Some? && Info(env, other.value).healthy then other else None
  {
    hide QueueSendLink, PeerLinkActive, OutgoingPeer, Matches, DestFor, Equivalent, Consistent;
    var peer := OutgoingPeer(t, target);
    OutgoingIsDest(t, target);
    if QueueSendLink(t, env, peer, hint).Some? {
      QueueMatches(t, env, peer, hint);
    }
    if QueueSendLink(t, env, peer, None).Some? {
      QueueMatches(t, env, peer, None);
    }
  }

  /** Call signalling goes out on the link found for a linked peer, healthy or not; media on the link best for media. */
  lemma CallTakes(t: Table, env: Env, target: Hash, hint: Option<LinkId>)
    requires Consistent(t.aliases)
    ensures var peer := OutgoingPeer(t, target);
            && CallLink(t, env, target, hint)
               == (if peer == "" || !PeerLinkActive(t, env, peer) then None else QueueSendLink(t, env, peer, hint))
            && MediaSendLink(t, env, target, hint)
               == (if peer == "" || !PeerLinkActive(t, env, peer) then None else MediaLink(t, env, peer, hint))
  {
    hide QueueSendLink, PeerLinkActive, OutgoingPeer, Matches, DestFor, MediaLink, Consistent;
    var peer := OutgoingPeer(t, target);
    OutgoingIsDest(t, target);
    if QueueSendLink(t, env, peer, hint).Some? {
      QueueMatches(t, env, peer, hint);
    }
    if MediaLink(t, env, peer, hint).Some? {
      MediaMatches(t, env, peer, hint);
    }
  }

  lemma MediaMatches(t: Table, env: Env, peer: Hash, hint: Option<LinkId>)
    requires Consistent(t.aliases) && peer == DestFor(t.aliases, peer) && MediaLink(t, env, peer, hint).Some?
    ensures Matches(t, env, MediaLink(t, env, peer, hint).value, peer)
  {
    hide QueueSendLink, LinksFor, DestFor, Consistent;
    if QueueSendLink(t, env, peer, hint).Some? {
      QueueMatches(t, env, peer, hint);
    }
  }

  /** A fitting hint is taken for media; without one a healthy fitting link that is listed, before any send link. */
  lemma MediaSources(t: Table, env: Env, hash: Hash, hint: Option<LinkId>)
    ensures var peer, r := DestFor(t.aliases, hash), MediaLink(t, env, hash, hint);
            var some := exists l :: l in LinksFor(t, env, peer) && Info(env, l).healthy && Fit(t, env, l, peer);
            if peer == "" || peer == UNKNOWN then r == None
            else if hint.Some? && Fit(t, env, hint.value, peer) then r == hint
            else if some then r.Some? && r.value in LinksFor(t, env, peer) && Info(env, r.value).healthy && Fit(t, env, r.value, peer)
            else r == QueueSendLink(t, env, peer, hint)
  {
    hide QueueSendLink, LinksFor, DestFor, Matches, Acceptable, FirstMax, Filter;
    var peer := DestFor(t.aliases, hash);
    var good := Filter(LinksFor(t, env, peer), MediaGood(t, env, peer));
    if good != [] {
      assert good[0] in good;
    }
  }
}
