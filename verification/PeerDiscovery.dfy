/** The discovery service: the mutable table, and what every run of its operations keeps. */
module PeerDiscovery {
  import opened Collections
  import opened LanScope
  import opened PeerRecords
  import opened DiscoveryTable
  import opened ProbeState
  import opened DiscoveryView
  import opened IdentityDedupe

  /** Our own hashes and the table. */
  datatype Service = Service(table: Table, local: set<Hash>)

  datatype Step =
    | Stored(serialActive: bool, now: Time, peer: Peer)
    | LocalHashes(hashes: set<Hash>)
    | OutOfScope(scopeIp: string)
    | Ipless
    | Misclassified(onLan: set<Hash>)
    | OfflineSerial(serialActive: bool)
    | Hashes(hashes: set<Hash>)
    | StaleProbes(now: Time, maxRtt: int, staleS: Time, maxFailures: nat)
    | Older(now: Time, maxAge: Time)
    | Expired(now: Time)
    | ProbeResult(hash: Hash, rtt: Option<int>, ok: bool, now: Time)
    | RttCleared(hash: Hash)
    | RowRemoved(key: Key)
    | Deduped(serialActive: bool, within: string)

  /** One operation under the pinned scope. */
  function Next(s: Service, scope: string, step: Step): Service {
    match step
    case Stored(active, now, p) => s.(table := Store(s.table, s.local, Env(scope, active, now), p))
    case LocalHashes(hashes) => Service(SetLocal(s.table, hashes - {""}), hashes - {""})
    case OutOfScope(ip) => s.(table := PurgeOutOfScope(s.table, ip))
    case Ipless => s.(table := PurgeIpless(s.table))
    case Misclassified(onLan) => s.(table := PurgeMisclassified(s.table, onLan))
    case OfflineSerial(active) => s.(table := PurgeOfflineSerial(s.table, active))
    case Hashes(hashes) => s.(table := PurgeHashes(s.table, hashes))
    case StaleProbes(now, rtt, age, failures) => s.(table := PurgeStale(s.table, now, rtt, age, failures))
    case Older(now, age) => s.(table := DropOlder(s.table, now, age))
    case Expired(now) => s.(table := Expire(s.table, now))
    case ProbeResult(hash, rtt, ok, now) => s.(table := UpdateProbe(s.table, hash, rtt, ok, now))
    case RttCleared(hash) => s.(table := ClearRtt(s.table, hash))
    case RowRemoved(key) => s.(table := Remove(s.table, key))
    case Deduped(active, within) => s.(table := DedupeIdentities(s.table, active, within))
  }

  function Run(s: Service, scope: string, steps: seq<Step>): Service
    decreases |steps|
  {
    if steps == [] then s else Run(Next(s, scope, steps[0]), scope, steps[1..])
  }

  const START := Service(RawDict([], map[]), {})

  lemma SetLocalOk(t: Table, old_local: set<Hash>, local: set<Hash>, scope: string)
    requires TableOk(t, old_local, scope) && "" !in local
    ensures TableOk(SetLocal(t, local), local, scope)
  {
    hide InScope;
    var r := SetLocal(t, local);
    forall k | k in r.vals
      ensures RowOk(local, scope, k, r.vals[k])
    {
      assert RowOk(old_local, scope, k, t.vals[k]);
    }
  }

  /** A step that only drops rows, or only rewrites probe state. */
  lemma QuietStepOk(t: Table, r: Table, local: set<Hash>, scope: string)
    requires TableOk(t, local, scope)
    requires forall k :: k in r.vals ==> k in t.vals && r.vals[k] == t.vals[k].(probe := r.vals[k].probe)
    ensures TableOk(r, local, scope)
  {
    hide RowOk, Apart;
    forall k, l | k in r.vals && l in r.vals
      ensures RowOk(local, scope, k, r.vals[k]) && Apart(r.vals[k], r.vals[l])
    {
      ProbeIrrelevant(local, scope, k, t.vals[k], t.vals[l], r.vals[k].probe, r.vals[l].probe);
    }
  }

  lemma NextOk(s: Service, scope: string, step: Step)
    requires TableOk(s.table, s.local, scope)
    ensures var r := Next(s, scope, step); TableOk(r.table, r.local, scope)
  {
    hide TableOk, Store, SetLocal, Probed, Stale, SameLanScope, Stays;
    match step
    case Stored(active, now, p) => StoreOk(s.table, s.local, Env(scope, active, now), p);
    case LocalHashes(hashes) => SetLocalOk(s.table, s.local, hashes - {""}, scope);
    case _ => QuietStepOk(s.table, Next(s, scope, step).table, s.local, scope);
  }

  /** Every run of stores, purges, expiries and local-hash changes keeps the table well formed. */
  lemma {:induction false} RunOk(s: Service, scope: string, steps: seq<Step>)
    requires TableOk(s.table, s.local, scope)
    ensures var r := Run(s, scope, steps); TableOk(r.table, r.local, scope)
    decreases |steps|
  {
    if steps != [] {
      NextOk(s, scope, steps[0]);
      RunOk(Next(s, scope, steps[0]), scope, steps[1..]);
    }
  }

  /** After any run from an empty table, get_peers shows exactly the viable rows, whatever order they came in. */
  lemma ReachableViewIsFilter(scope: string, steps: seq<Step>, serialActive: bool, viewScope: string)
    ensures var t := Run(START, scope, steps).table;
            (forall k :: k in t.vals ==> k.zone == LanZone || k.zone == SerialZone) ==>
              View(t, serialActive, viewScope) == SerialRows(Values(t), serialActive) + LanRows(Values(t), viewScope)
  {
    hide View;
    RunOk(START, scope, steps);
    var r := Run(START, scope, steps);
    if forall k :: k in r.table.vals ==> k.zone == LanZone || k.zone == SerialZone {
      ViewIsFilter(r.table, r.local, scope, serialActive, viewScope);
    }
  }

  class Discovery {
    var peers: Table
    var localHashes: set<Hash>
    var acceptPeers: bool

    ghost predicate Valid(scope: string)
      reads this
    {
      TableOk(peers, localHashes, scope)
    }

    function State(): Service
      reads this
    {
      Service(peers, localHashes)
    }

    constructor ()
      ensures State() == START && forall scope :: Valid(scope)
    {
      peers, localHashes, acceptPeers := Empty(), {}, false;
    }

    /** set_local_hashes. */
    method SetLocalHashes(hashes: set<Hash>, ghost scope: string)
      requires Valid(scope)
      modifies `peers, `localHashes
      ensures State() == Next(old(State()), scope, LocalHashes(hashes)) && Valid(scope)
    {
      var clean := hashes - {""};
      NextOk(State(), scope, LocalHashes(hashes));
      ghost var before := State();
      localHashes := clean;
      if clean != {} {
        var p := (k: Key, e: Peer) => !IsLocal(clean, e);
        KeepSame(before.table, p, (k: Key, e: Peer) => !IsLocal(clean, e));
        peers := DeleteFailing(peers, p);
      }
    }

    /** _store_peer: sanitise, evict superseded rows, then merge or insert. */
    method StorePeer(env: Env, peer: Peer) returns (stored: bool)
      requires Valid(env.scope)
      modifies `peers
      ensures peers == Store(old(peers), localHashes, env, peer) && Valid(env.scope)
      ensures stored ==> peer.hash != "" && StorageKey(peer) in peers.vals
    {
      hide InScope, IsLocal, Superseded, Merge, AttachIp;
      StoreOk(peers, localHashes, env, peer);
      if peer.hash == "" || IsLocal(localHashes, peer) {
        return false;
      }
      var p := if IsSerial(peer) then peer.(serialRns := true) else peer;
      var sanitized := Sanitize(peers, env, p);
      if sanitized.None? {
        peers := Reject(peers, p);
        return false;
      }
      var q := if IsSerial(sanitized.value) then sanitized.value else AttachIp(peers, sanitized.value, env.scope);
      var kept := EvictLoop(peers, env, q);
      var key := StorageKey(q);
      if key in kept.vals {
        var merged := Merge(env, kept.vals[key], q);
        if merged.None? {
          peers := Remove(kept, key);
          return false;
        }
        peers := ResetProbes(Put(kept, key, merged.value), q.hash, env.now);
      } else {
        peers := ResetProbes(Put(kept, key, q), q.hash, env.now);
      }
      StoredKey(old(peers), env, p, sanitized.value, q);
      return true;
    }

    /** update_peer_probe. */
    method UpdatePeerProbe(hash: Hash, rtt: Option<int>, ok: bool, now: Time, ghost scope: string)
      requires Valid(scope)
      modifies `peers
      ensures State() == Next(old(State()), scope, ProbeResult(hash, rtt, ok, now)) && Valid(scope)
    {
      hide TableOk, Probed, Reprobe;
      NextOk(State(), scope, ProbeResult(hash, rtt, ok, now));
      if hash == "" {
        return;
      }
      var f := (e: Peer) => if e.hash == hash then Probed(e, rtt, ok, now) else e.probe;
      ReprobeSame(peers, f, (e: Peer) => if e.hash == hash then Probed(e, rtt, ok, now) else e.probe);
      peers := ReprobeLoop(peers, f);
    }

    /** purge_stale_probes. */
    method PurgeStaleProbes(now: Time, maxRtt: int, staleS: Time, maxFailures: nat, ghost scope: string) returns (removed: int)
      requires Valid(scope)
      modifies `peers
      ensures peers == PurgeStale(old(peers), now, maxRtt, staleS, maxFailures) && Valid(scope)
      ensures removed == |old(peers).keys| - |peers.keys|
    {
      NextOk(State(), scope, StaleProbes(now, maxRtt, staleS, maxFailures));
      var before := |peers.keys|;
      var p := (k: Key, e: Peer) => !Stale(e, now, maxRtt, staleS, maxFailures);
      KeepSame(peers, p, (k: Key, e: Peer) => !Stale(e, now, maxRtt, staleS, maxFailures));
      peers := DeleteFailing(peers, p);
      removed := before - |peers.keys|;
    }

    /** dedupe_identities. */
    method Dedupe(serialActive: bool, within: string, ghost scope: string) returns (removed: int)
      requires Valid(scope)
      modifies `peers
      ensures State() == Next(old(State()), scope, Deduped(serialActive, within)) && Valid(scope)
      ensures removed == |old(peers).keys| - |peers.keys|
    {
      hide TableOk, DedupeIdentities;
      NextOk(State(), scope, Deduped(serialActive, within));
      var before := |peers.keys|;
      peers := DedupeLoops(peers, serialActive, within);
      removed := before - |peers.keys|;
    }

    /** get_peers: expire, deduplicate by key, collapse by address, filter. */
    method GetPeers(now: Time, serialActive: bool, scope: string) returns (shown: seq<Peer>)
      modifies `peers
      ensures acceptPeers ==> peers == Expire(old(peers), now) && shown == View(peers, serialActive, scope)
      ensures !acceptPeers ==> peers == old(peers) && shown == []
    {
      if !acceptPeers {
        return [];
      }
      var unexpired := (k: Key, e: Peer) => now - e.lastSeen <= TTL;
      KeepSame(peers, unexpired, (k: Key, e: Peer) => now - e.lastSeen <= TTL);
      peers := DeleteFailing(peers, unexpired);
      var rows := Visible(peers, scope);
      shown := FoldLoops(rows, serialActive, scope);
    }
  }

  /** _store_peer's removal of a rejected peer. */
  method Reject(t: Table, p: Peer) returns (r: Table)
    ensures r == Keep(t, (k: Key, e: Peer) => k != StorageKey(p) && e.hash != p.hash)
  {
    var test := (k: Key, e: Peer) => k != StorageKey(p) && e.hash != p.hash;
    KeepSame(t, test, (k: Key, e: Peer) => k != StorageKey(p) && e.hash != p.hash);
    r := DeleteFailing(t, test);
  }

  /** The loop over the rows that rewrites probe state in place. */
  method ReprobeLoop(t: Table, f: Peer -> Probe) returns (r: Table)
    ensures r == Reprobe(t, f)
  {
    r := t;
    for i := 0 to |t.keys|
      invariant r.keys == t.keys && r.vals.Keys == t.vals.Keys
      invariant forall j :: 0 <= j < |t.keys| ==>
                  r.vals[t.keys[j]] == if j < i then t.vals[t.keys[j]].(probe := f(t.vals[t.keys[j]])) else t.vals[t.keys[j]]
    {
      var k := t.keys[i];
      assert forall j :: 0 <= j < |t.keys| && j != i ==> t.keys[j] != k;
      r := Put(r, k, t.vals[k].(probe := f(t.vals[k])));
    }
    assert forall k :: k in t.vals ==> k in t.keys;
    assert r.vals == Reprobe(t, f).vals;
  }

  lemma ReprobeSame(t: Table, f: Peer -> Probe, g: Peer -> Probe)
    requires forall e :: f(e) == g(e)
    ensures Reprobe(t, f) == Reprobe(t, g)
  {
    assert Reprobe(t, f).vals == Reprobe(t, g).vals;
  }

  /** The loop of _evict_superseded_peers. */
  method EvictLoop(t: Table, env: Env, p: Peer) returns (r: Table)
    ensures r == Evict(t, env, p)
    ensures forall k :: k in t.vals ==>
              (k !in r.vals <==>
                && t.vals[k].hash != p.hash && SameFamily(t.vals[k], p)
                && (OneHost(p, t.vals[k]) || (OneName(p, t.vals[k]) && !env.serialActive)))
  {
    hide Superseded, OneHost, OneName;
    forall k | k in t.vals
      ensures k !in Evict(t, env, p).vals <==>
                && t.vals[k].hash != p.hash && SameFamily(t.vals[k], p)
                && (OneHost(p, t.vals[k]) || (OneName(p, t.vals[k]) && !env.serialActive))
    {
      EvictsIff(t, env, p, k);
    }
    var test := (k: Key, e: Peer) => !Superseded(env, p, e);
    KeepSame(t, test, (k: Key, e: Peer) => !Superseded(env, p, e));
    r := DeleteFailing(t, test);
  }

  lemma StoredKey(t: Table, env: Env, p: Peer, sanitized: Peer, q: Peer)
    requires Sanitize(t, env, p) == Some(sanitized)
    requires q == if IsSerial(sanitized) then sanitized else AttachIp(t, sanitized, env.scope)
    ensures StorageKey(q) == StorageKey(p)
  {
    hide InScope;
  }

  /** The two loops of get_peers. */
  method FoldLoops(rows: seq<Peer>, serialActive: bool, scope: string) returns (shown: seq<Peer>)
    ensures shown == Fold(rows, serialActive, scope)
  {
    hide DedupStep, CollapseStep, Viable;
    var deduped: Deduped := Empty();
    for i := 0 to |rows|
      invariant deduped == Dedup(rows[..i], serialActive, scope)
    {
      assert rows[..i + 1][..i] == rows[..i];
      deduped := DedupStep(deduped, rows[i], serialActive, scope);
    }
    assert rows[..|rows|] == rows;
    var all := Values(deduped);
    var s := Shown([], Empty());
    for i := 0 to |all|
      invariant s == Collapse(all[..i], all, serialActive, scope)
    {
      assert all[..i + 1][..i] == all[..i];
      s := CollapseStep(s, all[i], all, serialActive, scope);
    }
    assert all[..|all|] == all;
    shown := Filter(s.serial + Values(s.byIp), Reachable(serialActive, scope));
  }
}
