/** Discovery rows and the pure tests on them: storage key, viability, and the order between two rows. */
module PeerRecords {
  import opened Collections
  import opened LanScope
  import opened Names

  type Hash = string
  type Time = real

  /** How a row was learned; Blank is a missing via. */
  datatype Via = Blank | ViaLan | Rns | Beacon | ViaSerial | ViaLink | TcpHub

  /** The transport part of a storage key. */
  datatype Zone = LanZone | SerialZone | LinkZone | HubZone

  /** rtt_samples, rtt_avg_ms, probe_failures and last_probe_ok (0 when never). */
  datatype Probe = Probe(samples: seq<int>, avg: Option<int>, failures: nat, lastOk: Time)

  /** ip, identity and pubkey are "" when absent. */
  datatype Peer = Peer(
    hash: Hash, name: string, via: Via, ip: string, port: int, identity: Hash, pubkey: string,
    serialRns: bool, lastSeen: Time, probe: Probe)

  datatype Key = Key(hash: Hash, zone: Zone)

  function ZoneOf(v: Via): Zone {
    match v
    case ViaSerial => SerialZone
    case ViaLink => LinkZone
    case TcpHub => HubZone
    case _ => LanZone
  }

  function StorageKey(p: Peer): Key {
    Key(p.hash, ZoneOf(p.via))
  }

  predicate IsSerial(p: Peer) {
    p.via == ViaSerial
  }

  predicate SameFamily(a: Peer, b: Peer) {
    IsSerial(a) == IsSerial(b)
  }

  /** scope "" means unscoped. */
  predicate Viable(p: Peer, serialActive: bool, scope: string) {
    if IsSerial(p) then serialActive
    else p.ip != "" && (scope == "" || InScope(p.ip, scope))
  }

  // ----- which of two rows is better -----

  function Rank(p: Peer): nat {
    (if IsSerial(p) then 22 else if p.via == Rns || p.via == Beacon then 20 else 0)
    + (if p.pubkey != "" then 8 else 0)
    + (if |p.hash| >= 32 then 5 else 0)
    + (if p.ip != "" then 2 else 0)
    + (if p.name != "" && !(ShortHash(p.hash) <= p.name) then 3 else 0)
  }

  /** _prefer_peer, as whether the first argument is returned. */
  predicate Prefers(a: Peer, b: Peer, serialActive: bool, scope: string) {
    var aOk, bOk := Viable(a, serialActive, scope), Viable(b, serialActive, scope);
    if aOk != bOk then aOk
    else if a.probe.avg.Some? && b.probe.avg.Some? && a.probe.avg != b.probe.avg then a.probe.avg.value < b.probe.avg.value
    else if a.probe.avg.Some? && b.probe.avg.None? then true
    else if b.probe.avg.Some? && a.probe.avg.None? then false
    else if Rank(a) != Rank(b) then Rank(a) > Rank(b)
    else a.lastSeen >= b.lastSeen
  }

  function Prefer(a: Peer, b: Peer, serialActive: bool, scope: string): Peer {
    if Prefers(a, b, serialActive, scope) then a else b
  }

  /** Strictly slower: a missing round trip is slower than any. */
  predicate Slower(a: Option<int>, b: Option<int>) {
    b.Some? && (a.None? || a.value > b.value)
  }

  /** The lexicographic order: viability, then round trip, then rank, then last seen. */
  predicate AtLeast(a: Peer, b: Peer, serialActive: bool, scope: string) {
    var aOk, bOk := Viable(a, serialActive, scope), Viable(b, serialActive, scope);
    || (aOk && !bOk)
    || (aOk == bOk && Slower(b.probe.avg, a.probe.avg))
    || (aOk == bOk && a.probe.avg == b.probe.avg && Rank(a) > Rank(b))
    || (aOk == bOk && a.probe.avg == b.probe.avg && Rank(a) == Rank(b) && a.lastSeen >= b.lastSeen)
  }

  lemma PrefersIsLexicographic(a: Peer, b: Peer, serialActive: bool, scope: string)
    ensures Prefers(a, b, serialActive, scope) <==> AtLeast(a, b, serialActive, scope)
  {
  }

  /** _prefer_peer is a total preorder on rows. */
  lemma PrefersTotalPreorder(a: Peer, b: Peer, c: Peer, serialActive: bool, scope: string)
    ensures Prefers(a, a, serialActive, scope)
    ensures Prefers(a, b, serialActive, scope) || Prefers(b, a, serialActive, scope)
    ensures Prefers(a, b, serialActive, scope) && Prefers(b, c, serialActive, scope) ==> Prefers(a, c, serialActive, scope)
  {
    hide Viable, Rank;
    PrefersIsLexicographic(a, b, serialActive, scope);
    PrefersIsLexicographic(b, c, serialActive, scope);
    PrefersIsLexicographic(a, c, serialActive, scope);
  }

  /** The fold of dedupe_identities over one group of rows. */
  function Winner(group: seq<Peer>, serialActive: bool, scope: string): (w: Peer)
    requires group != []
    ensures w in group
  {
    var n := |group| - 1;
    if n == 0 then group[0]
    else
      var w := Winner(group[..n], serialActive, scope);
      assert w in group[..n];
      Prefer(w, group[n], serialActive, scope)
  }

  /** The kept row is a greatest one of its group. */
  lemma {:induction false} WinnerIsBest(group: seq<Peer>, serialActive: bool, scope: string, i: nat)
    requires i < |group|
    ensures Prefers(Winner(group, serialActive, scope), group[i], serialActive, scope)
    decreases |group|
  {
    hide Prefers;
    var n := |group| - 1;
    var w := Winner(group, serialActive, scope);
    PrefersTotalPreorder(w, w, w, serialActive, scope);
    if n > 0 {
      var v := Winner(group[..n], serialActive, scope);
      PrefersTotalPreorder(v, group[n], v, serialActive, scope);
      if i < n {
        WinnerIsBest(group[..n], serialActive, scope, i);
        PrefersTotalPreorder(w, v, group[i], serialActive, scope);
      }
    }
  }

  /** Whatever order the rows come in, the winners tie: each is preferred to the other. */
  lemma WinnerOrderFree(g: seq<Peer>, h: seq<Peer>, serialActive: bool, scope: string)
    requires g != [] && multiset(g) == multiset(h)
    ensures h != []
    ensures Prefers(Winner(g, serialActive, scope), Winner(h, serialActive, scope), serialActive, scope)
    ensures Prefers(Winner(h, serialActive, scope), Winner(g, serialActive, scope), serialActive, scope)
  {
    hide Prefers, Winner;
    assert g[0] in multiset(g) && g[0] in multiset(h);
    var u, v := Winner(g, serialActive, scope), Winner(h, serialActive, scope);
    assert u in multiset(g) && v in multiset(h);
    assert v in g && u in h;
    var i :| 0 <= i < |g| && g[i] == v;
    var j :| 0 <= j < |h| && h[j] == u;
    WinnerIsBest(g, serialActive, scope, i);
    WinnerIsBest(h, serialActive, scope, j);
  }

  // ----- which of two rows on one IP is shown -----

  predicate Verified(p: Peer) {
    p.pubkey != ""
  }

  /** _same_ip_preferred. */
  function SameIpPreferred(a: Peer, b: Peer, serialActive: bool, scope: string): Peer {
    if Verified(a) != Verified(b) then (if Verified(a) then a else b)
    else if a.lastSeen != b.lastSeen then (if a.lastSeen >= b.lastSeen then a else b)
    else if a.via == Rns && b.via == Beacon then a
    else if b.via == Rns && a.via == Beacon then b
    else Prefer(a, b, serialActive, scope)
  }

  /** Verified before unverified, then the more recently seen: the part of that choice that is transitive. */
  predicate Fresher(a: Peer, b: Peer) {
    (Verified(a) && !Verified(b)) || (Verified(a) == Verified(b) && a.lastSeen >= b.lastSeen)
  }

  lemma SameIpChoice(a: Peer, b: Peer, serialActive: bool, scope: string)
    ensures var w := SameIpPreferred(a, b, serialActive, scope);
            (w == a || w == b) && Fresher(w, a) && Fresher(w, b)
  {
  }

  /** One row came in an announce and the other in a beacon. */
  predicate Mixed(a: Peer, b: Peer) {
    (a.via == Rns && b.via == Beacon) || (a.via == Beacon && b.via == Rns)
  }

  /** Verified before unverified, then the more recently seen, then _prefer_peer's order. */
  predicate ShownOver(a: Peer, b: Peer, serialActive: bool, scope: string) {
    || (Verified(a) && !Verified(b))
    || (Verified(a) == Verified(b)
        && (a.lastSeen > b.lastSeen || (a.lastSeen == b.lastSeen && Prefers(a, b, serialActive, scope))))
  }

  lemma ShownOverTotalPreorder(a: Peer, b: Peer, c: Peer, serialActive: bool, scope: string)
    ensures ShownOver(a, a, serialActive, scope)
    ensures ShownOver(a, b, serialActive, scope) || ShownOver(b, a, serialActive, scope)
    ensures ShownOver(a, b, serialActive, scope) && ShownOver(b, c, serialActive, scope) ==> ShownOver(a, c, serialActive, scope)
  {
    hide Prefers;
    PrefersTotalPreorder(a, b, c, serialActive, scope);
  }

  /** For rows that are no such pair the choice is the greater in that order. */
  lemma SameIpOptimal(a: Peer, b: Peer, serialActive: bool, scope: string)
    requires !Mixed(a, b)
    ensures var w := SameIpPreferred(a, b, serialActive, scope);
            (w == a || w == b) && ShownOver(w, a, serialActive, scope) && ShownOver(w, b, serialActive, scope)
  {
    hide Prefers;
    PrefersTotalPreorder(a, b, a, serialActive, scope);
    PrefersTotalPreorder(b, a, b, serialActive, scope);
  }

  /** a is chosen over b whichever is named first. */
  predicate Beats(a: Peer, b: Peer, serialActive: bool, scope: string) {
    a != b && SameIpPreferred(a, b, serialActive, scope) == a && SameIpPreferred(b, a, serialActive, scope) == a
  }

  predicate Cycle(a: Peer, b: Peer, c: Peer, serialActive: bool, scope: string) {
    Beats(a, b, serialActive, scope) && Beats(b, c, serialActive, scope) && Beats(c, a, serialActive, scope)
  }

  /** An rns row, a beacon row and a third of neither kind, equally verified and seen, where the beacon row is
      strictly preferred to the third and the third to the rns row. */
  predicate BeaconDetour(rns: Peer, beacon: Peer, third: Peer, serialActive: bool, scope: string) {
    && rns.via == Rns && beacon.via == Beacon && third.via != Rns && third.via != Beacon
    && Verified(rns) == Verified(beacon) == Verified(third) && rns.lastSeen == beacon.lastSeen == third.lastSeen
    && !Prefers(third, beacon, serialActive, scope) && !Prefers(rns, third, serialActive, scope)
  }

  /** Three rows cycle exactly when they are such a detour. */
  lemma SameIpCyclesIff(a: Peer, b: Peer, c: Peer, serialActive: bool, scope: string)
    ensures Cycle(a, b, c, serialActive, scope) <==>
              || BeaconDetour(a, b, c, serialActive, scope)
              || BeaconDetour(b, c, a, serialActive, scope)
              || BeaconDetour(c, a, b, serialActive, scope)
  {
    hide Prefers;
    PrefersTotalPreorder(a, b, c, serialActive, scope);
    PrefersTotalPreorder(b, c, a, serialActive, scope);
    PrefersTotalPreorder(c, a, b, serialActive, scope);
  }

  /** And some three rows are. */
  lemma SameIpCanCycle()
    ensures exists a, b, c :: Cycle(a, b, c, true, "")
  {
    var never := Probe([], None, 0, 0.0);
    var a := Peer("a", "", Rns, "10.0.0.1", 1, "", "", false, 1.0, never);
    var b := Peer("b", "", Beacon, "10.0.0.1", 1, "", "", false, 1.0, never.(avg := Some(5)));
    var c := Peer("c", "", ViaLink, "10.0.0.1", 1, "", "", false, 1.0, never.(avg := Some(9)));
    assert Beats(a, b, true, "");
    assert Beats(b, c, true, "");
    assert Beats(c, a, true, "");
    assert Cycle(a, b, c, true, "");
  }
}
