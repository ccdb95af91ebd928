/** The discovery table: storing an announced peer, eviction, merging and the purges. */
module DiscoveryTable {
  import opened Collections
  import opened LanScope
  import opened Names
  import opened PeerRecords

  type Table = Dict<Key, Peer>

  /** What a store reads of its surroundings: pinned LAN scope ("" when unscoped), USB state, the clock. */
  datatype Env = Env(scope: string, serialActive: bool, now: Time)

  // ----- storing one peer -----

  predicate Donor(p: Peer, scope: string, e: Peer) {
    && e.ip != ""
    && (scope != "" ==> InScope(e.ip, scope))
    && ((p.name != "" && e.name == p.name) || (p.identity != "" && e.identity == p.identity))
  }

  function FirstDonor(rows: seq<Peer>, p: Peer, scope: string): (r: Option<Peer>)
    ensures r.Some? ==> r.value in rows && Donor(p, scope, r.value)
  {
    if rows == [] then None else if Donor(p, scope, rows[0]) then Some(rows[0]) else FirstDonor(rows[1..], p, scope)
  }

  /** _attach_peer_ip: an address-less LAN peer takes the address of a row with its name or identity. */
  function AttachIp(t: Table, p: Peer, scope: string): Peer {
    if IsSerial(p) then p.(ip := "")
    else if p.ip != "" then p
    else
      var d := FirstDonor(Values(t), p, scope);
      if d.None? || IsSerial(d.value) then p else p.(ip := d.value.ip, port := d.value.port)
  }

  /** _sanitize_peer_scope: None rejects the peer. */
  function Sanitize(t: Table, env: Env, p: Peer): Option<Peer> {
    if IsSerial(p) then (if env.serialActive then Some(p.(ip := "")) else None)
    else if env.scope == "" then Some(p)
    else
      var q := AttachIp(t, p, env.scope);
      if q.ip != "" && InScope(q.ip, env.scope) then Some(q) else None
  }

  predicate SameName(p: Peer, e: Peer) {
    && p.name != "" && e.name != "" && p.name == e.name
    && p.name != ShortHash(p.hash) && e.name != ShortHash(e.hash)
  }

  /** Row e is an older row of the host that now announces as p. */
  predicate Superseded(env: Env, p: Peer, e: Peer) {
    && e.hash != p.hash
    && SameFamily(p, e)
    && (|| (p.identity != "" && e.identity == p.identity)
        || (p.pubkey != "" && e.pubkey == p.pubkey)
        || (var sameHost := p.ip != "" && e.ip == p.ip;
            !(env.serialActive && SameName(p, e) && !sameHost) && (sameHost || SameName(p, e))))
  }

  function Evict(t: Table, env: Env, p: Peer): Table {
    Keep(t, (k: Key, e: Peer) => !Superseded(env, p, e))
  }

  predicate HashLike(name: string, hash: Hash) {
    name == "" || name == ShortHash(hash) || Lower(name) == Lower(ShortHash(hash))
  }

  /** The existing row e refreshed from p; None when p's new address is out of scope. */
  function Merge(env: Env, e: Peer, p: Peer): Option<Peer> {
    var moved := p.ip != "" && p.ip != e.ip;
    if moved && env.scope != "" && !InScope(p.ip, env.scope) then None
    else
      Some(e.(
        ip := if moved then p.ip else e.ip,
        port := if moved then p.port else e.port,
        identity := if e.identity == "" then p.identity else e.identity,
        pubkey := if e.pubkey == "" then p.pubkey else e.pubkey,
        name := if p.name != "" && !HashLike(p.name, p.hash) then p.name else e.name,
        lastSeen := p.lastSeen))
  }

  /** reset_peer_probe_state on one row. */
  function Refreshed(p: Peer, now: Time): Probe {
    p.probe.(failures := 0, lastOk := if p.lastSeen != 0.0 then p.lastSeen else now)
  }

  /** Probe state rewritten in place; keys, order and everything else stay. */
  function Reprobe(t: Table, f: Peer -> Probe): (r: Table)
    ensures r.keys == t.keys
    ensures forall k :: k in t.vals <==> k in r.vals
    ensures forall k :: k in r.vals ==> r.vals[k] == t.vals[k].(probe := f(t.vals[k]))
  {
    RawDict(t.keys, map k | k in t.vals :: t.vals[k].(probe := f(t.vals[k])))
  }

  function ResetProbes(t: Table, hash: Hash, now: Time): Table {
    Reprobe(t, (e: Peer) => if e.hash == hash then Refreshed(e, now) else e.probe)
  }

  /** Insert or merge p, whose older rows are already evicted. */
  function Insert(t: Table, env: Env, p: Peer): Table {
    var key := StorageKey(p);
    if key in t.vals then
      match Merge(env, t.vals[key], p)
      case None => Remove(t, key)
      case Some(e) => ResetProbes(Put(t, key, e), p.hash, env.now)
    else ResetProbes(Put(t, key, p), p.hash, env.now)
  }

  predicate IsLocal(local: set<Hash>, p: Peer) {
    p.hash in local || (p.identity != "" && p.identity in local)
  }

  /** _store_peer. */
  function Store(t: Table, local: set<Hash>, env: Env, peer: Peer): Table {
    if peer.hash == "" || IsLocal(local, peer) then t
    else
      var p := if IsSerial(peer) then peer.(serialRns := true) else peer;
      match Sanitize(t, env, p)
      case None => Keep(t, (k: Key, e: Peer) => k != StorageKey(p) && e.hash != p.hash)
      case Some(q) =>
        var r := if IsSerial(q) then q else AttachIp(t, q, env.scope);
        Insert(Evict(t, env, r), env, r)
  }

  // ----- the purges -----

  function SetLocal(t: Table, local: set<Hash>): Table {
    if local == {} then t else Keep(t, (k: Key, e: Peer) => !IsLocal(local, e))
  }

  function PurgeOutOfScope(t: Table, scope: string): Table {
    if scope == "" then t
    else Keep(t, (k: Key, e: Peer) => IsSerial(e) || e.ip == "" || SameLanScope(e.ip, scope))
  }

  function PurgeIpless(t: Table): Table {
    Keep(t, (k: Key, e: Peer) => IsSerial(e) || e.ip != "")
  }

  /** onLan: hashes whose last announce packet came in on an interface other than serial. */
  function PurgeMisclassified(t: Table, onLan: set<Hash>): Table {
    Keep(t, (k: Key, e: Peer) => !(IsSerial(e) && e.hash in onLan))
  }

  function PurgeOfflineSerial(t: Table, serialActive: bool): Table {
    if serialActive then t else Keep(t, (k: Key, e: Peer) => !IsSerial(e))
  }

  /** The transport as a storage key writes it. */
  function ZoneText(z: Zone): string {
    match z
    case LanZone => "lan"
    case SerialZone => "serial"
    case LinkZone => "link"
    case HubZone => "tcp_hub"
  }

  /** A storage key read as a hash: normalisation drops its colon. */
  function KeyText(k: Key): Hash {
    k.hash + ZoneText(k.zone)
  }

  predicate Targets(hashes: set<Hash>, h: Hash) {
    h != "" && h in hashes
  }

  function PurgeHashes(t: Table, hashes: set<Hash>): Table {
    Keep(t, (k: Key, e: Peer) => !Targets(hashes, KeyText(k)) && !Targets(hashes, e.hash) && !Targets(hashes, e.identity))
  }

  const TTL: Time := 300.0

  function Expire(t: Table, now: Time): Table {
    Keep(t, (k: Key, e: Peer) => now - e.lastSeen <= TTL)
  }

  /** refresh_stale_entries after its probe purge. */
  function DropOlder(t: Table, now: Time, maxAge: Time): Table {
    Keep(t, (k: Key, e: Peer) => e.lastSeen == 0.0 || now - e.lastSeen <= maxAge)
  }

  // ----- the table invariant -----

  predicate RowOk(local: set<Hash>, scope: string, k: Key, p: Peer) {
    && k == StorageKey(p)
    && p.hash != ""
    && !IsLocal(local, p)
    && (IsSerial(p) ==> p.ip == "" && p.serialRns)
    && (scope != "" && !IsSerial(p) ==> InScope(p.ip, scope))
  }

  /** Two rows of one family for different hashes share nothing that names a host. */
  predicate Apart(a: Peer, b: Peer) {
    SameFamily(a, b) && a.hash != b.hash ==>
      && (a.ip == "" || a.ip != b.ip)
      && (a.identity == "" || a.identity != b.identity)
      && (a.pubkey == "" || a.pubkey != b.pubkey)
  }

  ghost predicate TableOk(t: Table, local: set<Hash>, scope: string) {
    && (forall k :: k in t.vals ==> RowOk(local, scope, k, t.vals[k]))
    && (forall k, l :: k in t.vals && l in t.vals ==> Apart(t.vals[k], t.vals[l]))
  }

  lemma SubTableOk(t: Table, r: Table, local: set<Hash>, scope: string)
    requires TableOk(t, local, scope)
    requires forall k :: k in r.vals ==> k in t.vals && r.vals[k] == t.vals[k]
    ensures TableOk(r, local, scope)
  {
  }

  lemma ProbeIrrelevant(local: set<Hash>, scope: string, k: Key, p: Peer, o: Peer, x: Probe, y: Probe)
    ensures RowOk(local, scope, k, p.(probe := x)) == RowOk(local, scope, k, p)
    ensures Apart(p.(probe := x), o.(probe := y)) == Apart(p, o)
  {
  }

  /** Changing only probe state keeps the invariant. */
  lemma ReprobeOk(t: Table, f: Peer -> Probe, local: set<Hash>, scope: string)
    requires TableOk(t, local, scope)
    ensures TableOk(Reprobe(t, f), local, scope)
  {
    hide RowOk, Apart;
    var r := Reprobe(t, f);
    forall k, l | k in r.vals && l in r.vals
      ensures RowOk(local, scope, k, r.vals[k]) && Apart(r.vals[k], r.vals[l])
    {
      ProbeIrrelevant(local, scope, k, t.vals[k], t.vals[l], f(t.vals[k]), f(t.vals[l]));
    }
  }

  lemma ResetProbesOk(t: Table, hash: Hash, now: Time, local: set<Hash>, scope: string)
    requires TableOk(t, local, scope)
    ensures TableOk(ResetProbes(t, hash, now), local, scope)
  {
    ReprobeOk(t, (e: Peer) => if e.hash == hash then Refreshed(e, now) else e.probe, local, scope);
  }

  /** A row may enter when it is well formed and apart from every other row. */
  lemma PutOk(t: Table, p: Peer, local: set<Hash>, scope: string)
    requires TableOk(t, local, scope) && RowOk(local, scope, StorageKey(p), p)
    requires forall k :: k in t.vals ==> Apart(p, t.vals[k]) && Apart(t.vals[k], p)
    ensures TableOk(Put(t, StorageKey(p), p), local, scope)
  {
    var r := Put(t, StorageKey(p), p);
    forall k, l | k in r.vals && l in r.vals
      ensures Apart(r.vals[k], r.vals[l])
    {
    }
  }

  lemma EvictedApart(t: Table, env: Env, p: Peer, k: Key)
    requires k in Evict(t, env, p).vals
    ensures Apart(p, t.vals[k]) && Apart(t.vals[k], p)
  {
    assert !Superseded(env, p, t.vals[k]);
  }

  lemma ApartSymmetric(a: Peer, b: Peer)
    ensures Apart(a, b) == Apart(b, a)
  {
  }

  /** What names a host in the merged row comes from one of the two. */
  lemma MergedNames(env: Env, e: Peer, p: Peer)
    requires Merge(env, e, p).Some? && StorageKey(e) == StorageKey(p)
    ensures var m := Merge(env, e, p).value;
            && m.hash == e.hash == p.hash && IsSerial(m) == IsSerial(e) == IsSerial(p)
            && (m.ip == e.ip || m.ip == p.ip)
            && (m.identity == e.identity || m.identity == p.identity)
            && (m.pubkey == e.pubkey || m.pubkey == p.pubkey)
  {
    hide InScope, HashLike;
  }

  /** Merging takes p's address, and p's identity and key only where the row had none. */
  lemma MergedApart(env: Env, e: Peer, p: Peer, o: Peer)
    requires Merge(env, e, p).Some? && StorageKey(e) == StorageKey(p)
    requires Apart(p, o) && Apart(e, o)
    ensures Apart(Merge(env, e, p).value, o) && Apart(o, Merge(env, e, p).value)
  {
    hide Merge;
    MergedNames(env, e, p);
    ApartSymmetric(Merge(env, e, p).value, o);
  }

  lemma MergedRowOk(env: Env, e: Peer, p: Peer, local: set<Hash>, key: Key)
    requires Merge(env, e, p).Some? && RowOk(local, env.scope, key, e) && RowOk(local, env.scope, key, p)
    ensures RowOk(local, env.scope, key, Merge(env, e, p).value) && StorageKey(Merge(env, e, p).value) == key
  {
    hide InScope, HashLike;
  }

  lemma RowKey(local: set<Hash>, scope: string, k: Key, p: Peer)
    requires RowOk(local, scope, k, p)
    ensures k == StorageKey(p)
  {
  }

  lemma InsertOk(t: Table, env: Env, p: Peer, local: set<Hash>)
    requires TableOk(t, local, env.scope) && RowOk(local, env.scope, StorageKey(p), p)
    requires forall k :: k in t.vals ==> Apart(p, t.vals[k]) && Apart(t.vals[k], p)
    ensures TableOk(Insert(t, env, p), local, env.scope)
  {
    hide InScope, Merge, ResetProbes, RowOk, Apart;
    var key := StorageKey(p);
    if key in t.vals {
      var e := t.vals[key];
      assert RowOk(local, env.scope, key, e);
      RowKey(local, env.scope, key, e);
      match Merge(env, e, p) {
        case None =>
        case Some(m) =>
          MergedRowOk(env, e, p, local, key);
          forall k | k in t.vals
            ensures Apart(m, t.vals[k]) && Apart(t.vals[k], m)
          {
            assert Apart(e, t.vals[k]) && Apart(t.vals[k], e);
            MergedApart(env, e, p, t.vals[k]);
          }
          PutOk(t, m, local, env.scope);
          ResetProbesOk(Put(t, key, m), p.hash, env.now, local, env.scope);
      }
    } else {
      PutOk(t, p, local, env.scope);
      ResetProbesOk(Put(t, key, p), p.hash, env.now, local, env.scope);
    }
  }

  /** The peer as it is inserted: serial flag set, scope applied, address attached; None when rejected. */
  function Admitted(t: Table, env: Env, peer: Peer): Option<Peer> {
    var p := if IsSerial(peer) then peer.(serialRns := true) else peer;
    match Sanitize(t, env, p)
    case None => None
    case Some(q) => Some(if IsSerial(q) then q else AttachIp(t, q, env.scope))
  }

  lemma StoreInserts(t: Table, local: set<Hash>, env: Env, peer: Peer)
    requires peer.hash != "" && !IsLocal(local, peer) && Admitted(t, env, peer).Some?
    ensures var p := Admitted(t, env, peer).value; Store(t, local, env, peer) == Insert(Evict(t, env, p), env, p)
  {
    hide Sanitize, AttachIp, Insert, Evict;
  }

  lemma AdmittedInScope(t: Table, env: Env, peer: Peer)
    requires Admitted(t, env, peer).Some?
    ensures var p := Admitted(t, env, peer).value;
            && StorageKey(p) == StorageKey(peer)
            && (IsSerial(p) ==> p.ip == "")
            && (!IsSerial(p) && env.scope != "" ==> InScope(p.ip, env.scope))
  {
    hide InScope;
  }

  lemma AdmittedRowOk(t: Table, local: set<Hash>, env: Env, peer: Peer)
    requires peer.hash != "" && !IsLocal(local, peer) && Admitted(t, env, peer).Some?
    ensures var p := Admitted(t, env, peer).value; RowOk(local, env.scope, StorageKey(p), p)
  {
    hide InScope;
  }

  /** A store keeps the table well formed. */
  lemma StoreOk(t: Table, local: set<Hash>, env: Env, peer: Peer)
    requires TableOk(t, local, env.scope)
    ensures TableOk(Store(t, local, env, peer), local, env.scope)
  {
    hide InScope, Superseded, Insert, Apart, Evict, IsLocal, Admitted;
    if peer.hash != "" && !IsLocal(local, peer) {
      if Admitted(t, env, peer).Some? {
        AdmittedStoreOk(t, local, env, peer);
      } else {
        RejectedSubset(t, local, env, peer);
        SubTableOk(t, Store(t, local, env, peer), local, env.scope);
      }
    }
  }

  lemma AdmittedStoreOk(t: Table, local: set<Hash>, env: Env, peer: Peer)
    requires TableOk(t, local, env.scope) && peer.hash != "" && !IsLocal(local, peer) && Admitted(t, env, peer).Some?
    ensures TableOk(Store(t, local, env, peer), local, env.scope)
  {
    hide TableOk, Superseded, Insert, Apart, Evict, Admitted, Store, RowOk;
    var p := Admitted(t, env, peer).value;
    AdmittedRowOk(t, local, env, peer);
    StoreInserts(t, local, env, peer);
    var kept := Evict(t, env, p);
    EvictSubset(t, env, p);
    SubTableOk(t, kept, local, env.scope);
    forall k | k in kept.vals
      ensures Apart(p, kept.vals[k]) && Apart(kept.vals[k], p)
    {
      EvictedApart(t, env, p, k);
    }
    InsertOk(kept, env, p, local);
  }

  lemma EvictSubset(t: Table, env: Env, p: Peer)
    ensures forall k :: k in Evict(t, env, p).vals ==> k in t.vals && Evict(t, env, p).vals[k] == t.vals[k]
  {
  }

  lemma RejectedSubset(t: Table, local: set<Hash>, env: Env, peer: Peer)
    requires peer.hash != "" && !IsLocal(local, peer) && Admitted(t, env, peer).None?
    ensures var r := Store(t, local, env, peer); forall k :: k in r.vals ==> k in t.vals && r.vals[k] == t.vals[k]
  {
    hide Sanitize, AttachIp, IsLocal;
  }

  // ----- what a store does to the table -----

  /** Equal but for probe state. */
  predicate SameButProbe(a: Peer, b: Peer) {
    a.(probe := b.probe) == b
  }

  /** What a row learns from a store: the address and sighting of the new record, facts it lacked, a real name. */
  predicate LearnsFrom(row: Peer, p: Peer, existing: Option<Peer>) {
    && row.hash == p.hash && ZoneOf(row.via) == ZoneOf(p.via)
    && row.lastSeen == p.lastSeen && row.probe.failures == 0
    && (p.ip != "" ==> row.ip == p.ip)
    && (p.ip == "" && existing.Some? ==> row.ip == existing.value.ip)
    && row.identity == (if existing.Some? && existing.value.identity != "" then existing.value.identity else p.identity)
    && row.pubkey == (if existing.Some? && existing.value.pubkey != "" then existing.value.pubkey else p.pubkey)
    && (p.name != "" && !HashLike(p.name, p.hash) ==> row.name == p.name)
    && (existing.Some? && (p.name == "" || HashLike(p.name, p.hash)) ==> row.name == existing.value.name)
  }

  lemma MergeLearns(env: Env, e: Peer, p: Peer)
    requires StorageKey(e) == StorageKey(p) && (p.ip != "" && env.scope != "" ==> InScope(p.ip, env.scope))
    ensures Merge(env, e, p).Some? && StorageKey(Merge(env, e, p).value) == StorageKey(p)
    ensures LearnsFrom(Merge(env, e, p).value.(probe := e.probe.(failures := 0)), p, Some(e))
  {
    hide InScope, HashLike;
  }

  /** Inserting p leaves its row having learned from it, and touches only probe state elsewhere. */
  lemma InsertEffect(t: Table, env: Env, p: Peer, k: Key)
    requires p.ip != "" && env.scope != "" ==> InScope(p.ip, env.scope)
    requires StorageKey(p) in t.vals ==> StorageKey(t.vals[StorageKey(p)]) == StorageKey(p)
    ensures var r := Insert(t, env, p);
            && StorageKey(p) in r.vals && LearnsFrom(r.vals[StorageKey(p)], p, Get(t, StorageKey(p)))
            && (k != StorageKey(p) ==> (k in r.vals <==> k in t.vals) && (k in r.vals ==> SameButProbe(r.vals[k], t.vals[k])))
  {
    hide InScope, HashLike, Merge;
    var key := StorageKey(p);
    if key in t.vals {
      MergeLearns(env, t.vals[key], p);
    }
  }

  /** An admitted peer ends up in its row; every other row stays unless it is superseded, and only then goes. */
  lemma StoreEffect(t: Table, local: set<Hash>, env: Env, peer: Peer, k: Key)
    requires TableOk(t, local, env.scope)
    requires peer.hash != "" && !IsLocal(local, peer) && Admitted(t, env, peer).Some?
    ensures var r, p := Store(t, local, env, peer), Admitted(t, env, peer).value;
            && StorageKey(p) == StorageKey(peer) && StorageKey(p) in r.vals
            && LearnsFrom(r.vals[StorageKey(p)], p, Get(t, StorageKey(p)))
            && (k != StorageKey(p) ==>
                && (k in r.vals <==> k in t.vals && !Superseded(env, p, t.vals[k]))
                && (k in r.vals ==> SameButProbe(r.vals[k], t.vals[k])))
  {
    hide InScope, Superseded, LearnsFrom, SameButProbe, Admitted, Insert, Store;
    var p := Admitted(t, env, peer).value;
    var key := StorageKey(p);
    AdmittedInScope(t, env, peer);
    if key in t.vals {
      RowKey(local, env.scope, key, t.vals[key]);
      SameHashNotSuperseded(env, p, t.vals[key]);
    }
    StoreInserts(t, local, env, peer);
    InsertEffect(Evict(t, env, p), env, p, k);
  }

  /** Row e and the newcomer p name one host: a common address, identity or key. */
  predicate OneHost(p: Peer, e: Peer) {
    || (p.ip != "" && p.ip == e.ip)
    || (p.identity != "" && p.identity == e.identity)
    || (p.pubkey != "" && p.pubkey == e.pubkey)
  }

  /** They announce one name, and it is no short hash. */
  predicate OneName(p: Peer, e: Peer) {
    p.name == e.name && p.name !in {"", ShortHash(p.hash), ShortHash(e.hash)}
  }

  /** An eviction takes the rows of other hashes in p's family that name its host or, only while USB is down, carry its
      name. Every other row stays as it is. */
  lemma EvictsIff(t: Table, env: Env, p: Peer, k: Key)
    requires k in t.vals
    ensures var e := t.vals[k];
            k !in Evict(t, env, p).vals <==>
              && e.hash != p.hash && (e.via == ViaSerial <==> p.via == ViaSerial)
              && (OneHost(p, e) || (OneName(p, e) && !env.serialActive))
    ensures k in Evict(t, env, p).vals ==> Evict(t, env, p).vals[k] == t.vals[k]
  {
  }

  /** A store loses an earlier row exactly when it is another hash's, of the same family, and names the newcomer's host
      or, only while USB is down, carries its name. */
  lemma StoreLosesIff(t: Table, local: set<Hash>, env: Env, peer: Peer, k: Key)
    requires TableOk(t, local, env.scope) && k in t.vals
    requires peer.hash != "" && !IsLocal(local, peer) && Admitted(t, env, peer).Some?
    ensures var p, e := Admitted(t, env, peer).value, t.vals[k];
            k !in Store(t, local, env, peer).vals <==>
              && e.hash != p.hash && (e.via == ViaSerial <==> p.via == ViaSerial)
              && (OneHost(p, e) || (OneName(p, e) && !env.serialActive))
  {
    hide Store, Admitted, Superseded, OneHost, OneName, LearnsFrom;
    var p, e := Admitted(t, env, peer).value, t.vals[k];
    StoreEffect(t, local, env, peer, k);
    EvictsIff(t, env, p, k);
    RowKey(local, env.scope, k, e);
  }

  lemma SameHashNotSuperseded(env: Env, p: Peer, e: Peer)
    requires e.hash == p.hash
    ensures !Superseded(env, p, e)
  {
  }

  /** A rejected peer loses every row of its hash, and nobody else loses any. */
  lemma RejectEffect(t: Table, local: set<Hash>, env: Env, peer: Peer, k: Key)
    requires TableOk(t, local, env.scope)
    requires peer.hash != "" && !IsLocal(local, peer) && Admitted(t, env, peer).None?
    ensures var r := Store(t, local, env, peer);
            && (k in r.vals <==> k in t.vals && t.vals[k].hash != peer.hash)
            && (k in r.vals ==> r.vals[k] == t.vals[k])
  {
    hide InScope, AttachIp;
    if k in t.vals {
      RowKey(local, env.scope, k, t.vals[k]);
    }
  }

  /** Moving to a new scope: purging what lies outside and what has no address restores the invariant for it. */
  lemma ScopeChangeRestores(t: Table, local: set<Hash>, before: string, scope: string)
    requires TableOk(t, local, before) && scope != ""
    ensures TableOk(PurgeIpless(PurgeOutOfScope(t, scope)), local, scope)
  {
    hide SameLanScope, Apart;
    var r := PurgeIpless(PurgeOutOfScope(t, scope));
    forall k | k in r.vals
      ensures RowOk(local, scope, k, r.vals[k])
    {
      assert RowOk(local, before, k, t.vals[k]);
    }
  }
}
