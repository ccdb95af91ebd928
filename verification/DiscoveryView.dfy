/** get_peers: two deduplication passes and a filter over the fresh rows, and what they amount to. */
module DiscoveryView {
  import opened Collections
  import opened LanScope
  import opened PeerRecords
  import opened DiscoveryTable

  // ----- first pass: one row per connect hash and transport -----

  datatype DedupKey =
    | ByDest(hash: Hash, zone: Zone)
    | ByIdentity(ident: Hash, zone: Zone)
    | ByPubkey(prefix: string, zone: Zone)
    | Nameless(zone: Zone)
    | Suffixed(base: DedupKey, other: Hash)

  function DedupKeyOf(p: Peer): DedupKey {
    var z := ZoneOf(p.via);
    if p.hash != "" then ByDest(p.hash, z)
    else if p.identity != "" then ByIdentity(p.identity, z)
    else if p.pubkey != "" then ByPubkey(if |p.pubkey| <= 48 then p.pubkey else p.pubkey[..48], z)
    else Nameless(z)
  }

  predicate SameIdentity(a: Peer, b: Peer) {
    || (a.identity != "" && a.identity == b.identity)
    || (a.pubkey != "" && a.pubkey == b.pubkey)
  }

  type Deduped = Dict<DedupKey, Peer>

  function DedupStep(d: Deduped, p: Peer, serialActive: bool, scope: string): Deduped {
    var key := DedupKeyOf(p);
    if key !in d.vals then Put(d, key, p)
    else
      var e := d.vals[key];
      if e.hash != p.hash then
        if e.via != p.via then Put(d, Suffixed(key, p.hash), p)
        else if SameIdentity(e, p) then Put(d, key, Prefer(e, p, serialActive, scope))
        else if Verified(p) && !Verified(e) then Put(d, key, p)
        else if Verified(e) && !Verified(p) then d
        else if p.lastSeen >= e.lastSeen then Put(d, key, p)
        else d
      else Put(d, key, Prefer(e, p, serialActive, scope))
  }

  function Dedup(rows: seq<Peer>, serialActive: bool, scope: string): Deduped {
    if rows == [] then Empty()
    else DedupStep(Dedup(rows[..|rows| - 1], serialActive, scope), rows[|rows| - 1], serialActive, scope)
  }

  // ----- second pass: one LAN row per address -----

  /** Serial rows shown so far, and the LAN row shown for each address. */
  datatype Shown = Shown(serial: seq<Peer>, byIp: Dict<string, Peer>)

  predicate HasLanRow(rows: seq<Peer>, hash: Hash) {
    exists i :: 0 <= i < |rows| && rows[i].hash == hash && !IsSerial(rows[i])
  }

  function CollapseStep(s: Shown, p: Peer, all: seq<Peer>, serialActive: bool, scope: string): Shown {
    if IsSerial(p) then
      if !serialActive || (!p.serialRns && HasLanRow(all, p.hash)) then s
      else s.(serial := s.serial + [p.(ip := "")])
    else if p.ip == "" then s
    else if p.ip !in s.byIp.vals then s.(byIp := Put(s.byIp, p.ip, p))
    else s.(byIp := Put(s.byIp, p.ip, SameIpPreferred(p, s.byIp.vals[p.ip], serialActive, scope)))
  }

  function Collapse(rows: seq<Peer>, all: seq<Peer>, serialActive: bool, scope: string): Shown {
    if rows == [] then Shown([], Empty())
    else CollapseStep(Collapse(rows[..|rows| - 1], all, serialActive, scope), rows[|rows| - 1], all, serialActive, scope)
  }

  // ----- the whole view -----

  predicate OtherSubnet(p: Peer, scope: string) {
    scope != "" && p.ip != "" && !SameLanScope(p.ip, scope)
  }

  function InView(scope: string): Peer -> bool {
    (p: Peer) => !OtherSubnet(p, scope)
  }

  function Reachable(serialActive: bool, scope: string): Peer -> bool {
    (p: Peer) => Viable(p, serialActive, scope)
  }

  function OverUsb(serialActive: bool): Peer -> bool {
    (p: Peer) => IsSerial(p) && serialActive
  }

  function OverNet(scope: string): Peer -> bool {
    (p: Peer) => !IsSerial(p) && Viable(p, false, scope)
  }

  function Visible(t: Table, scope: string): seq<Peer> {
    Filter(Values(t), InView(scope))
  }

  function Fold(rows: seq<Peer>, serialActive: bool, scope: string): seq<Peer> {
    var deduped := Values(Dedup(rows, serialActive, scope));
    var shown := Collapse(deduped, deduped, serialActive, scope);
    Filter(shown.serial + Values(shown.byIp), Reachable(serialActive, scope))
  }

  /** get_peers on a table whose expired rows are gone. */
  function View(t: Table, serialActive: bool, scope: string): seq<Peer> {
    Fold(Visible(t, scope), serialActive, scope)
  }

  // ----- the simple form -----

  function SerialRows(rows: seq<Peer>, serialActive: bool): (r: seq<Peer>)
    ensures forall p :: p in r <==> p in rows && IsSerial(p) && serialActive
  {
    Filter(rows, OverUsb(serialActive))
  }

  function LanRows(rows: seq<Peer>, scope: string): (r: seq<Peer>)
    ensures forall p :: p in r <==> p in rows && !IsSerial(p) && Viable(p, false, scope)
  {
    Filter(rows, OverNet(scope))
  }

  // ----- rows of a well-formed table -----

  /** Rows of a table that keeps its invariant, as a sequence. */
  ghost predicate RowsOk(rows: seq<Peer>) {
    && (forall i :: 0 <= i < |rows| ==>
          rows[i].hash != "" && (IsSerial(rows[i]) ==> rows[i].ip == "" && rows[i].serialRns))
    && (forall i, j :: 0 <= i < j < |rows| ==> StorageKey(rows[i]) != StorageKey(rows[j]))
    && (forall i, j :: 0 <= i < j < |rows| ==> Apart(rows[i], rows[j]))
  }

  lemma TableRowsOk(t: Table, local: set<Hash>, scope: string)
    requires TableOk(t, local, scope)
    ensures RowsOk(Values(t))
  {
    hide InScope, Apart, IsLocal;
    var rows := Values(t);
    forall i | 0 <= i < |rows|
      ensures rows[i].hash != "" && (IsSerial(rows[i]) ==> rows[i].ip == "" && rows[i].serialRns)
      ensures StorageKey(rows[i]) == t.keys[i]
    {
      assert RowOk(local, scope, t.keys[i], t.vals[t.keys[i]]);
    }
  }

  lemma RowsOkCons(p: Peer, rest: seq<Peer>)
    requires RowsOk(rest) && p.hash != "" && (IsSerial(p) ==> p.ip == "" && p.serialRns)
    requires forall q :: q in rest ==> StorageKey(p) != StorageKey(q) && Apart(p, q)
    ensures RowsOk([p] + rest)
  {
    hide Apart, StorageKey;
  }

  lemma {:induction false} FilterRowsOk(rows: seq<Peer>, p: Peer -> bool)
    requires RowsOk(rows)
    ensures RowsOk(Filter(rows, p))
    decreases |rows|
  {
    if rows != [] {
      FilterRowsOk(rows[1..], p);
      var rest := Filter(rows[1..], p);
      forall q | q in rest
        ensures StorageKey(rows[0]) != StorageKey(q) && Apart(rows[0], q)
      {
        hide Apart, StorageKey;
        assert q in rows[1..];
        var m :| 0 <= m < |rows[1..]| && rows[1..][m] == q;
        assert rows[m + 1] == q;
      }
      RowsOkCons(rows[0], rest);
    }
  }

  lemma DedupStepNew(d: Deduped, p: Peer, serialActive: bool, scope: string)
    requires DedupKeyOf(p) !in d.vals
    ensures var r := DedupStep(d, p, serialActive, scope);
            Values(r) == Values(d) + [p] && r.keys == d.keys + [DedupKeyOf(p)]
  {
    ValuesPutNew(d, DedupKeyOf(p), p);
  }

  /** The deduplicated rows are the given ones, each under its own key. */
  ghost predicate HoldsRows(d: Deduped, rows: seq<Peer>) {
    && Values(d) == rows
    && (forall i :: 0 <= i < |rows| ==> d.keys[i] == DedupKeyOf(rows[i]))
  }

  lemma HoldsNone()
    ensures HoldsRows(Empty(), [])
  {
  }

  lemma HoldsStep(d: Deduped, rows: seq<Peer>, p: Peer, serialActive: bool, scope: string)
    requires HoldsRows(d, rows) && forall i :: 0 <= i < |rows| ==> DedupKeyOf(rows[i]) != DedupKeyOf(p)
    ensures HoldsRows(DedupStep(d, p, serialActive, scope), rows + [p])
  {
    hide DedupStep, DedupKeyOf;
    assert DedupKeyOf(p) !in d.keys;
    DedupStepNew(d, p, serialActive, scope);
  }

  lemma PrefixOk(rows: seq<Peer>, n: nat)
    requires RowsOk(rows) && n < |rows|
    ensures RowsOk(rows[..n])
    ensures forall i :: 0 <= i < n ==> DedupKeyOf(rows[i]) != DedupKeyOf(rows[n])
  {
    hide Apart;
    forall i | 0 <= i < n
      ensures DedupKeyOf(rows[i]) != DedupKeyOf(rows[n])
    {
      assert StorageKey(rows[i]) != StorageKey(rows[n]);
    }
  }

  /** With distinct storage keys the first pass changes nothing. */
  lemma {:induction false} DedupIsIdentity(rows: seq<Peer>, serialActive: bool, scope: string)
    requires RowsOk(rows)
    ensures HoldsRows(Dedup(rows, serialActive, scope), rows)
    decreases |rows|
  {
    hide RowsOk, HoldsRows, DedupStep;
    if rows != [] {
      var n := |rows| - 1;
      var before := rows[..n];
      PrefixOk(rows, n);
      DedupIsIdentity(before, serialActive, scope);
      HoldsStep(Dedup(before, serialActive, scope), before, rows[n], serialActive, scope);
      assert before + [rows[n]] == rows;
    } else {
      HoldsNone();
    }
  }

  // ----- the second pass -----

  predicate SerialClean(p: Peer) {
    IsSerial(p) ==> p.ip == "" && p.serialRns
  }

  lemma {:induction false} CollapseSerial(rows: seq<Peer>, all: seq<Peer>, serialActive: bool, scope: string)
    requires forall i :: 0 <= i < |rows| ==> SerialClean(rows[i])
    ensures Collapse(rows, all, serialActive, scope).serial == SerialRows(rows, serialActive)
    decreases |rows|
  {
    hide SameIpPreferred, HasLanRow;
    if rows != [] {
      var n := |rows| - 1;
      CollapseSerial(rows[..n], all, serialActive, scope);
      assert rows == rows[..n] + [rows[n]];
      FilterSnoc(rows[..n], rows[n], OverUsb(serialActive));
      assert IsSerial(rows[n]) ==> rows[n].(ip := "") == rows[n];
    }
  }

  /** The row shown for an address is a LAN row of that address, and no other is verified-fresher. */
  ghost predicate IpsRight(rows: seq<Peer>, c: Dict<string, Peer>) {
    && (forall ip :: ip in c.vals ==> ip != "" && c.vals[ip].ip == ip && c.vals[ip] in rows && !IsSerial(c.vals[ip]))
    && (forall i :: 0 <= i < |rows| && !IsSerial(rows[i]) && rows[i].ip != "" ==>
          rows[i].ip in c.vals && Fresher(c.vals[rows[i].ip], rows[i]))
  }

  lemma FresherTransitive(a: Peer, b: Peer, c: Peer)
    requires Fresher(a, b) && Fresher(b, c)
    ensures Fresher(a, c)
  {
  }

  lemma {:induction false} CollapseIps(rows: seq<Peer>, all: seq<Peer>, serialActive: bool, scope: string)
    ensures IpsRight(rows, Collapse(rows, all, serialActive, scope).byIp)
    decreases |rows|
  {
    if rows != [] {
      var n := |rows| - 1;
      CollapseIps(rows[..n], all, serialActive, scope);
      CollapseIpsStep(rows[..n], rows[n], Collapse(rows[..n], all, serialActive, scope), all, serialActive, scope);
      assert rows == rows[..n] + [rows[n]];
    }
  }

  lemma CollapseIpsStep(rows: seq<Peer>, p: Peer, s: Shown, all: seq<Peer>, serialActive: bool, scope: string)
    requires IpsRight(rows, s.byIp)
    ensures IpsRight(rows + [p], CollapseStep(s, p, all, serialActive, scope).byIp)
  {
    hide SameIpPreferred, HasLanRow, Fresher;
    var c := CollapseStep(s, p, all, serialActive, scope).byIp;
    if !IsSerial(p) && p.ip != "" && p.ip in s.byIp.vals {
      SameIpChoice(p, s.byIp.vals[p.ip], serialActive, scope);
    }
    forall i | 0 <= i < |rows| && !IsSerial(rows[i]) && rows[i].ip != ""
      ensures rows[i].ip in c.vals && Fresher(c.vals[rows[i].ip], rows[i])
    {
      if c.vals[rows[i].ip] != s.byIp.vals[rows[i].ip] {
        FresherTransitive(c.vals[p.ip], s.byIp.vals[p.ip], rows[i]);
      }
    }
    if !IsSerial(p) && p.ip != "" {
      SameIpChoice(p, p, serialActive, scope);
      FresherSelf(p);
    }
  }

  lemma FresherSelf(p: Peer)
    ensures Fresher(p, p)
  {
  }

  // ----- the row shown is the best one -----

  predicate OneAddress(a: Peer, b: Peer) {
    !IsSerial(a) && !IsSerial(b) && a.ip != "" && a.ip == b.ip
  }

  /** Rows of one address are never an announced and a beaconed one. */
  ghost predicate Unmixed(rows: seq<Peer>) {
    forall i, j :: 0 <= i < |rows| && 0 <= j < |rows| && OneAddress(rows[i], rows[j]) ==> !Mixed(rows[i], rows[j])
  }

  /** No row of an address goes before the one shown for it. */
  ghost predicate IpsBest(rows: seq<Peer>, c: Dict<string, Peer>, serialActive: bool, scope: string) {
    forall i :: 0 <= i < |rows| && !IsSerial(rows[i]) && rows[i].ip != "" ==>
      rows[i].ip in c.vals && ShownOver(c.vals[rows[i].ip], rows[i], serialActive, scope)
  }

  lemma {:induction false} CollapseBest(rows: seq<Peer>, all: seq<Peer>, serialActive: bool, scope: string)
    requires Unmixed(rows)
    ensures IpsBest(rows, Collapse(rows, all, serialActive, scope).byIp, serialActive, scope)
    decreases |rows|
  {
    hide ShownOver, CollapseStep, Mixed;
    if rows != [] {
      var n := |rows| - 1;
      assert Unmixed(rows[..n]);
      var s := Collapse(rows[..n], all, serialActive, scope);
      CollapseBest(rows[..n], all, serialActive, scope);
      CollapseIps(rows[..n], all, serialActive, scope);
      assert rows == rows[..n] + [rows[n]];
      ShownUnmixed(rows, n, s.byIp);
      CollapseBestStep(rows[..n], rows[n], s, all, serialActive, scope);
    }
  }

  lemma ShownUnmixed(rows: seq<Peer>, n: nat, c: Dict<string, Peer>)
    requires Unmixed(rows) && n < |rows| && IpsRight(rows[..n], c)
    ensures !IsSerial(rows[n]) && rows[n].ip in c.vals ==> !Mixed(rows[n], c.vals[rows[n].ip])
  {
    hide Mixed, Fresher;
    if !IsSerial(rows[n]) && rows[n].ip in c.vals {
      var e := c.vals[rows[n].ip];
      assert e in rows[..n];
      var i :| 0 <= i < n && rows[..n][i] == e;
      assert rows[i] == e;
    }
  }

  lemma CollapseBestStep(rows: seq<Peer>, p: Peer, s: Shown, all: seq<Peer>, serialActive: bool, scope: string)
    requires IpsBest(rows, s.byIp, serialActive, scope)
    requires !IsSerial(p) && p.ip in s.byIp.vals ==> !Mixed(p, s.byIp.vals[p.ip])
    ensures IpsBest(rows + [p], CollapseStep(s, p, all, serialActive, scope).byIp, serialActive, scope)
  {
    hide SameIpPreferred, HasLanRow, ShownOver, Mixed;
    var c := CollapseStep(s, p, all, serialActive, scope).byIp;
    if !IsSerial(p) && p.ip != "" && p.ip in s.byIp.vals {
      SameIpOptimal(p, s.byIp.vals[p.ip], serialActive, scope);
    }
    forall i | 0 <= i < |rows| && !IsSerial(rows[i]) && rows[i].ip != ""
      ensures rows[i].ip in c.vals && ShownOver(c.vals[rows[i].ip], rows[i], serialActive, scope)
    {
      if c.vals[rows[i].ip] != s.byIp.vals[rows[i].ip] {
        ShownOverTotalPreorder(c.vals[p.ip], s.byIp.vals[p.ip], rows[i], serialActive, scope);
      }
    }
    ShownOverTotalPreorder(p, p, p, serialActive, scope);
  }

  /** Rows of a well-formed table that share an address share a hash, so they differ in transport. */
  lemma RowsUnmixed(rows: seq<Peer>)
    requires RowsOk(rows)
    ensures Unmixed(rows)
  {
    forall i, j | 0 <= i < j < |rows| && OneAddress(rows[i], rows[j])
      ensures !Mixed(rows[i], rows[j])
    {
      SharedAddress(rows[i], rows[j]);
    }
  }

  lemma SharedAddress(a: Peer, b: Peer)
    requires Apart(a, b) && StorageKey(a) != StorageKey(b)
    requires OneAddress(a, b)
    ensures a.hash == b.hash && !Mixed(a, b)
  {
  }

  /** So the cycle of _same_ip_preferred never shows up among the rows of a well-formed table. */
  lemma NoCycleOnTable(t: Table, local: set<Hash>, tableScope: string, a: Key, b: Key, c: Key, serialActive: bool, scope: string)
    requires TableOk(t, local, tableScope) && a in t.vals && b in t.vals && c in t.vals
    requires t.vals[a].ip == t.vals[b].ip == t.vals[c].ip && t.vals[a].ip != ""
    ensures !Cycle(t.vals[a], t.vals[b], t.vals[c], serialActive, scope)
  {
    hide Prefers, InScope, IsLocal, Cycle, Apart;
    var p, q, r := t.vals[a], t.vals[b], t.vals[c];
    SameIpCyclesIff(p, q, r, serialActive, scope);
    TableUnmixed(t, local, tableScope, a, b);
    TableUnmixed(t, local, tableScope, b, c);
    TableUnmixed(t, local, tableScope, c, a);
  }

  lemma TableUnmixed(t: Table, local: set<Hash>, tableScope: string, a: Key, b: Key)
    requires TableOk(t, local, tableScope) && a in t.vals && b in t.vals && t.vals[a].ip == t.vals[b].ip && t.vals[a].ip != ""
    ensures !Mixed(t.vals[a], t.vals[b])
  {
    hide InScope, IsLocal;
    assert RowOk(local, tableScope, a, t.vals[a]) && RowOk(local, tableScope, b, t.vals[b]);
    assert Apart(t.vals[a], t.vals[b]);
  }

  predicate Addressed(p: Peer) {
    !IsSerial(p) && p.ip != ""
  }

  lemma CollapseStepNew(s: Shown, p: Peer, all: seq<Peer>, serialActive: bool, scope: string)
    requires Addressed(p) ==> p.ip !in s.byIp.vals
    ensures Values(CollapseStep(s, p, all, serialActive, scope).byIp)
         == if Addressed(p) then Values(s.byIp) + [p] else Values(s.byIp)
  {
    hide HasLanRow, SameIpPreferred;
    if Addressed(p) {
      ValuesPutNew(s.byIp, p.ip, p);
    }
  }

  lemma IpNotShown(rows: seq<Peer>, c: Dict<string, Peer>, p: Peer)
    requires IpsRight(rows, c)
    requires forall i :: 0 <= i < |rows| && Addressed(rows[i]) ==> rows[i].ip != p.ip
    ensures p.ip !in c.vals
  {
  }

  ghost predicate AddressesDistinct(rows: seq<Peer>) {
    forall i, j :: 0 <= i < j < |rows| && Addressed(rows[i]) && Addressed(rows[j]) ==> rows[i].ip != rows[j].ip
  }

  lemma AddressesPrefix(rows: seq<Peer>, n: nat)
    requires AddressesDistinct(rows) && n < |rows|
    ensures AddressesDistinct(rows[..n])
    ensures Addressed(rows[n]) ==> forall i :: 0 <= i < n && Addressed(rows[..n][i]) ==> rows[..n][i].ip != rows[n].ip
  {
    hide Addressed;
  }

  /** When no two LAN rows share an address the second pass changes nothing either. */
  lemma {:induction false} CollapseIsIdentity(rows: seq<Peer>, all: seq<Peer>, serialActive: bool, scope: string)
    requires AddressesDistinct(rows)
    ensures Values(Collapse(rows, all, serialActive, scope).byIp) == Filter(rows, Addressed)
    decreases |rows|
  {
    hide CollapseStep, IpsRight, Addressed, AddressesDistinct;
    if rows != [] {
      var n := |rows| - 1;
      AddressesPrefix(rows, n);
      var s := Collapse(rows[..n], all, serialActive, scope);
      CollapseIsIdentity(rows[..n], all, serialActive, scope);
      CollapseIps(rows[..n], all, serialActive, scope);
      assert rows == rows[..n] + [rows[n]];
      FilterSnoc(rows[..n], rows[n], Addressed);
      if Addressed(rows[n]) {
        IpNotShown(rows[..n], s.byIp, rows[n]);
      }
      CollapseStepNew(s, rows[n], all, serialActive, scope);
    }
  }

  // ----- the refinement -----

  lemma RowsClean(rows: seq<Peer>)
    requires RowsOk(rows)
    ensures forall i :: 0 <= i < |rows| ==> SerialClean(rows[i])
  {
  }

  lemma ViableParts(p: Peer, serialActive: bool, scope: string)
    ensures IsSerial(p) ==> Viable(p, serialActive, scope) == serialActive
    ensures !IsSerial(p) ==> Viable(p, serialActive, scope) == Viable(p, false, scope)
    ensures !IsSerial(p) && Viable(p, false, scope) ==> Addressed(p) && !OtherSubnet(p, scope)
    ensures SerialClean(p) && IsSerial(p) ==> !OtherSubnet(p, scope)
  {
  }

  /** Filtering by a weaker test first changes nothing. */
  lemma WeakerFirst(rows: seq<Peer>, weak: Peer -> bool, strong: Peer -> bool)
    requires forall p :: p in rows && strong(p) ==> weak(p)
    ensures Filter(Filter(rows, weak), strong) == Filter(rows, strong)
  {
    FilterTwice(rows, weak, strong);
    FilterSame(rows, x => weak(x) && strong(x), strong);
  }

  /** Hiding other subnets first changes neither half. */
  lemma VisibleIrrelevant(rows: seq<Peer>, serialActive: bool, scope: string)
    requires forall i :: 0 <= i < |rows| ==> SerialClean(rows[i])
    ensures SerialRows(Filter(rows, InView(scope)), serialActive) == SerialRows(rows, serialActive)
    ensures LanRows(Filter(rows, InView(scope)), scope) == LanRows(rows, scope)
  {
    hide Viable, OtherSubnet, Addressed, SerialClean;
    forall p | p in rows
      ensures (OverUsb(serialActive)(p) || OverNet(scope)(p)) ==> InView(scope)(p)
    {
      var i :| 0 <= i < |rows| && rows[i] == p;
      assert SerialClean(rows[i]);
      ViableParts(p, serialActive, scope);
    }
    WeakerFirst(rows, InView(scope), OverUsb(serialActive));
    WeakerFirst(rows, InView(scope), OverNet(scope));
  }

  /** The last filter keeps the serial half whole and cuts the LAN half to its viable rows. */
  lemma FilterHalves(rows: seq<Peer>, lanHalf: seq<Peer>, serialActive: bool, scope: string)
    ensures Filter(SerialRows(rows, serialActive) + lanHalf, Reachable(serialActive, scope))
         == SerialRows(rows, serialActive) + Filter(lanHalf, Reachable(serialActive, scope))
  {
    hide Viable;
    var v := Reachable(serialActive, scope);
    var s := SerialRows(rows, serialActive);
    FilterAppend(s, lanHalf, v);
    forall p | p in s
      ensures v(p)
    {
      ViableParts(p, serialActive, scope);
    }
    FilterAll(s, v);
  }

  lemma FoldOfClean(rows: seq<Peer>, serialActive: bool, scope: string)
    requires RowsOk(rows)
    ensures Fold(rows, serialActive, scope)
         == SerialRows(rows, serialActive)
            + Filter(Values(Collapse(rows, rows, serialActive, scope).byIp), Reachable(serialActive, scope))
  {
    hide Viable, Apart, CollapseStep, DedupStep;
    DedupIsIdentity(rows, serialActive, scope);
    CollapseSerial(rows, rows, serialActive, scope);
    FilterHalves(rows, Values(Collapse(rows, rows, serialActive, scope).byIp), serialActive, scope);
  }

  lemma LanAddressesDistinct(rows: seq<Peer>, i: nat, j: nat)
    requires RowsOk(rows) && i < j < |rows| && Addressed(rows[i]) && Addressed(rows[j])
    requires ZoneOf(rows[i].via) == ZoneOf(rows[j].via) == LanZone
    ensures rows[i].ip != rows[j].ip
  {
    assert Apart(rows[i], rows[j]) && StorageKey(rows[i]) != StorageKey(rows[j]);
  }

  lemma VisibleAddresses(t: Table, local: set<Hash>, tableScope: string, scope: string)
    requires TableOk(t, local, tableScope) && RowsOk(Visible(t, scope))
    requires forall k :: k in t.vals ==> k.zone == LanZone || k.zone == SerialZone
    ensures AddressesDistinct(Visible(t, scope))
  {
    hide TableOk, RowsOk, InView;
    var rows := Visible(t, scope);
    forall i, j | 0 <= i < j < |rows| && Addressed(rows[i]) && Addressed(rows[j])
      ensures rows[i].ip != rows[j].ip
    {
      RowZone(t, local, tableScope, rows[i]);
      RowZone(t, local, tableScope, rows[j]);
      LanAddressesDistinct(rows, i, j);
    }
  }

  /** With rns, beacon, LAN and serial rows only, get_peers returns exactly the viable rows, serial ones first. */
  lemma ViewIsFilter(t: Table, local: set<Hash>, tableScope: string, serialActive: bool, scope: string)
    requires TableOk(t, local, tableScope)
    requires forall k :: k in t.vals ==> k.zone == LanZone || k.zone == SerialZone
    ensures View(t, serialActive, scope) == SerialRows(Values(t), serialActive) + LanRows(Values(t), scope)
  {
    hide Viable, Apart, CollapseStep, DedupStep, InScope, IsLocal, RowsOk, TableOk, Fold, Collapse, OtherSubnet, AddressesDistinct;
    var rows := Visible(t, scope);
    TableRowsOk(t, local, tableScope);
    FilterRowsOk(Values(t), InView(scope));
    FoldOfClean(rows, serialActive, scope);
    RowsClean(Values(t));
    VisibleIrrelevant(Values(t), serialActive, scope);
    VisibleAddresses(t, local, tableScope, scope);
    CollapseIsIdentity(rows, rows, serialActive, scope);
    ViableAddressed(rows, serialActive, scope);
  }

  lemma RowZone(t: Table, local: set<Hash>, tableScope: string, p: Peer)
    requires TableOk(t, local, tableScope) && p in Values(t)
    ensures StorageKey(p) in t.vals && ZoneOf(p.via) == StorageKey(p).zone
  {
    hide InScope, IsLocal, Apart;
    ValuesIn(t, p);
    var k :| k in t.vals && t.vals[k] == p;
    assert RowOk(local, tableScope, k, p);
  }

  lemma ViableAddressed(rows: seq<Peer>, serialActive: bool, scope: string)
    ensures Filter(Filter(rows, Addressed), Reachable(serialActive, scope)) == LanRows(rows, scope)
  {
    hide Viable, Addressed;
    var v := Reachable(serialActive, scope);
    var lan := OverNet(scope);
    FilterTwice(rows, Addressed, v);
    forall p | p in rows
      ensures (Addressed(p) && v(p)) == lan(p)
    {
      ViableParts(p, serialActive, scope);
      AddressedLan(p);
    }
    FilterSame(rows, x => Addressed(x) && v(x), lan);
  }

  lemma AddressedLan(p: Peer)
    ensures Addressed(p) ==> !IsSerial(p)
  {
  }

  /** As sets: a row is shown iff it is viable. */
  lemma ShownIffViable(t: Table, local: set<Hash>, tableScope: string, serialActive: bool, scope: string, p: Peer)
    requires TableOk(t, local, tableScope) && p in Values(t)
    requires forall k :: k in t.vals ==> k.zone == LanZone || k.zone == SerialZone
    ensures p in View(t, serialActive, scope) <==> Viable(p, serialActive, scope)
  {
    hide View, InScope;
    ViewIsFilter(t, local, tableScope, serialActive, scope);
    ViableParts(p, serialActive, scope);
  }

  /** With link and hub rows too: the serial rows as before, then one row for each viable address, the best of that
      address: verified before unverified, then the more recently seen, then _prefer_peer's choice. */
  lemma ViewCoversAddresses(t: Table, local: set<Hash>, tableScope: string, serialActive: bool, scope: string)
    returns (lan: seq<Peer>)
    requires TableOk(t, local, tableScope)
    ensures View(t, serialActive, scope) == SerialRows(Values(t), serialActive) + lan
    ensures IpsDistinct(lan)
    ensures forall p :: p in lan ==> p in Values(t) && !IsSerial(p) && Viable(p, serialActive, scope)
    ensures forall p :: p in Values(t) && !IsSerial(p) && Viable(p, serialActive, scope) ==>
              BestShown(lan, p, serialActive, scope)
  {
    hide Viable, Apart, CollapseStep, DedupStep, InScope, IsLocal, ShownOver, Fold, OtherSubnet, TableOk, BestShown, RowsOk,
         Unmixed, IpsBest, IpsRight, IpsDistinct, Collapse;
    var rows := Visible(t, scope);
    TableRowsOk(t, local, tableScope);
    FilterRowsOk(Values(t), InView(scope));
    FoldOfClean(rows, serialActive, scope);
    RowsClean(Values(t));
    VisibleIrrelevant(Values(t), serialActive, scope);
    var c := Collapse(rows, rows, serialActive, scope).byIp;
    CollapseIps(rows, rows, serialActive, scope);
    RowsUnmixed(rows);
    CollapseBest(rows, rows, serialActive, scope);
    lan := Filter(Values(c), Reachable(serialActive, scope));
    LanHalf(rows, c, serialActive, scope);
    forall p | p in Values(t) && !IsSerial(p) && Viable(p, serialActive, scope)
      ensures BestShown(lan, p, serialActive, scope)
    {
      ViableParts(p, serialActive, scope);
      assert p in rows;
    }
  }

  /** Some row shown for p's address goes before p or ties with it. */
  ghost predicate BestShown(lan: seq<Peer>, p: Peer, serialActive: bool, scope: string) {
    exists q :: q in lan && q.ip == p.ip && ShownOver(q, p, serialActive, scope)
  }

  lemma LanHalf(rows: seq<Peer>, c: Dict<string, Peer>, serialActive: bool, scope: string)
    requires IpsRight(rows, c) && IpsBest(rows, c, serialActive, scope)
    ensures var lan := Filter(Values(c), Reachable(serialActive, scope));
            && IpsDistinct(lan)
            && (forall p :: p in lan ==> p in rows && !IsSerial(p) && Viable(p, serialActive, scope))
            && (forall p :: p in rows && !IsSerial(p) && Viable(p, serialActive, scope) ==>
                  BestShown(lan, p, serialActive, scope))
  {
    hide ShownOver, Fresher, InScope, BestShown;
    var lan := Filter(Values(c), Reachable(serialActive, scope));
    assert forall i :: 0 <= i < |Values(c)| ==> Values(c)[i].ip == c.keys[i];
    DistinctIps(Values(c), Reachable(serialActive, scope));
    forall p | p in rows && !IsSerial(p) && Viable(p, serialActive, scope)
      ensures BestShown(lan, p, serialActive, scope)
    {
      BestIsShown(rows, c, p, serialActive, scope);
    }
    forall p | p in lan
      ensures p in rows && !IsSerial(p)
    {
      ValuesIn(c, p);
    }
  }

  lemma BestIsShown(rows: seq<Peer>, c: Dict<string, Peer>, p: Peer, serialActive: bool, scope: string)
    requires IpsRight(rows, c) && IpsBest(rows, c, serialActive, scope)
    requires p in rows && !IsSerial(p) && Viable(p, serialActive, scope)
    ensures BestShown(Filter(Values(c), Reachable(serialActive, scope)), p, serialActive, scope)
  {
    hide ShownOver, Fresher, InScope;
    var i :| 0 <= i < |rows| && rows[i] == p;
    var q := c.vals[p.ip];
    ValuesIn(c, q);
    assert q in Filter(Values(c), Reachable(serialActive, scope)) && ShownOver(q, rows[i], serialActive, scope);
  }

  ghost predicate IpsDistinct(rows: seq<Peer>) {
    forall i, j :: 0 <= i < j < |rows| ==> rows[i].ip != rows[j].ip
  }

  lemma IpsDistinctCons(p: Peer, rest: seq<Peer>)
    requires IpsDistinct(rest) && forall q :: q in rest ==> q.ip != p.ip
    ensures IpsDistinct([p] + rest)
  {
  }

  lemma {:induction false} DistinctIps(rows: seq<Peer>, p: Peer -> bool)
    requires IpsDistinct(rows)
    ensures IpsDistinct(Filter(rows, p))
    decreases |rows|
  {
    if rows != [] {
      DistinctIps(rows[1..], p);
      var rest := Filter(rows[1..], p);
      forall q | q in rest
        ensures q.ip != rows[0].ip
      {
        assert q in rows[1..];
      }
      IpsDistinctCons(rows[0], rest);
    }
  }
}
