/** What each operation on the discovery table does to a row, in the row's own fields. */
module DiscoveryEffects {
  import opened Collections
  import opened LanScope
  import opened Names
  import opened PeerRecords
  import opened DiscoveryTable
  import opened ProbeState
  import opened PeerDiscovery

  // ----- what is removed -----

  predicate OverSerial(e: Peer) {
    e.via == ViaSerial
  }

  /** A storage key read as a hash, its colon dropped. */
  function AsHash(k: Key): Hash {
    k.hash + (match k.zone case LanZone => "lan" case SerialZone => "serial" case LinkZone => "link" case HubZone => "tcp_hub")
  }

  /** How long a row has gone without a good probe, or without an announce if it was never probed. */
  function Silence(e: Peer, now: Time): Time {
    if e.probe.lastOk == 0.0 then now - e.lastSeen else now - e.probe.lastOk
  }

  /** Which rows each removal takes. */
  predicate Takes(step: Step, k: Key, e: Peer) {
    match step
    case LocalHashes(hashes) => (e.hash != "" && e.hash in hashes) || (e.identity != "" && e.identity in hashes)
    case OutOfScope(ip) => ip != "" && !OverSerial(e) && e.ip != "" && !SameLanScope(e.ip, ip)
    case Ipless => !OverSerial(e) && e.ip == ""
    case Misclassified(onLan) => OverSerial(e) && e.hash in onLan
    case OfflineSerial(active) => !active && OverSerial(e)
    case Hashes(hashes) => exists h :: h in hashes && h != "" && (h == e.hash || h == e.identity || h == AsHash(k))
    case StaleProbes(now, maxRtt, staleS, maxFailures) =>
      && !OverSerial(e) && now - e.lastSeen > staleS && Silence(e, now) > staleS
      && (e.probe.failures >= maxFailures || (|e.probe.samples| > 2 && e.probe.avg.Some? && maxRtt < e.probe.avg.value))
    case Older(now, maxAge) => e.lastSeen != 0.0 && maxAge < now - e.lastSeen
    case Expired(now) => now - e.lastSeen > 300.0
    case RowRemoved(key) => k == key
    case _ => false
  }

  /** Whether a step only removes rows. */
  predicate Removal(step: Step) {
    !step.Stored? && !step.ProbeResult? && !step.RttCleared? && !step.Deduped?
  }

  /** Every removal takes exactly its rows and leaves the others as they were, in their order. */
  lemma RemovalIff(s: Service, scope: string, step: Step, k: Key)
    requires Removal(step) && k in s.table.vals
    ensures var r := Next(s, scope, step).table;
            && (k !in r.vals <==> Takes(step, k, s.table.vals[k]))
            && (k in r.vals ==> r.vals[k] == s.table.vals[k])
  {
    hide SameLanScope, Stale, IsLocal, SetLocal, Targets, KeyText, AsHash, Silence;
    match step
    case Hashes(hashes) => TargetsIff(hashes, k, s.table.vals[k]);
    case LocalHashes(hashes) => LocalIff(s.table, hashes, k);
    case StaleProbes(now, maxRtt, staleS, maxFailures) => StaleIff(s.table.vals[k], now, maxRtt, staleS, maxFailures);
    case OutOfScope(_) =>
    case Ipless =>
    case Misclassified(_) =>
    case OfflineSerial(_) =>
    case Older(_, _) =>
    case Expired(_) =>
    case RowRemoved(_) =>
  }

  lemma LocalIff(t: Table, hashes: set<Hash>, k: Key)
    requires k in t.vals
    ensures var r, e := SetLocal(t, hashes - {""}), t.vals[k];
            && (k !in r.vals <==> (e.hash != "" && e.hash in hashes) || (e.identity != "" && e.identity in hashes))
            && (k in r.vals ==> r.vals[k] == e)
  {
    var e := t.vals[k];
    assert e.hash in hashes - {""} <==> e.hash in hashes && e.hash != "";
    assert e.identity in hashes - {""} <==> e.identity in hashes && e.identity != "";
  }

  lemma StaleIff(e: Peer, now: Time, maxRtt: int, staleS: Time, maxFailures: nat)
    ensures Stale(e, now, maxRtt, staleS, maxFailures) <==>
              && !OverSerial(e) && now - e.lastSeen > staleS && Silence(e, now) > staleS
              && (e.probe.failures >= maxFailures || (|e.probe.samples| > 2 && e.probe.avg.Some? && maxRtt < e.probe.avg.value))
  {
  }

  lemma TargetsIff(hashes: set<Hash>, k: Key, e: Peer)
    ensures Targets(hashes, KeyText(k)) || Targets(hashes, e.hash) || Targets(hashes, e.identity)
        <==> exists h :: h in hashes && h != "" && (h == e.hash || h == e.identity || h == AsHash(k))
  {
    assert KeyText(k) == AsHash(k);
  }

  /** No removal adds a row or changes the order of those left. */
  lemma RemovalAddsNone(s: Service, scope: string, step: Step)
    requires Removal(step)
    ensures var r := Next(s, scope, step).table; r.keys == Filter(s.table.keys, (k: Key) => k in r.vals)
  {
    hide InScope, SameLanScope, Stale, IsLocal, Targets, KeyText;
    var t, r := s.table, Next(s, scope, step).table;
    if r == t {
      assert forall k :: k in t.keys ==> k in t.vals;
      FilterAll(t.keys, (k: Key) => k in r.vals);
    } else {
      match step
      case LocalHashes(hashes) =>
        var local := hashes - {""};
        KeptKeys(t, (k: Key, e: Peer) => !IsLocal(local, e));
      case OutOfScope(scope) => KeptKeys(t, (k: Key, e: Peer) => IsSerial(e) || e.ip == "" || SameLanScope(e.ip, scope));
      case Ipless => KeptKeys(t, (k: Key, e: Peer) => IsSerial(e) || e.ip != "");
      case Misclassified(onLan) => KeptKeys(t, (k: Key, e: Peer) => !(IsSerial(e) && e.hash in onLan));
      case OfflineSerial(_) => KeptKeys(t, (k: Key, e: Peer) => !IsSerial(e));
      case Hashes(hashes) =>
        KeptKeys(t, (k: Key, e: Peer) => !Targets(hashes, KeyText(k)) && !Targets(hashes, e.hash) && !Targets(hashes, e.identity));
      case StaleProbes(now, maxRtt, staleS, maxFailures) => KeptKeys(t, (k: Key, e: Peer) => !Stale(e, now, maxRtt, staleS, maxFailures));
      case Older(now, maxAge) => KeptKeys(t, (k: Key, e: Peer) => e.lastSeen == 0.0 || now - e.lastSeen <= maxAge);
      case Expired(now) => KeptKeys(t, (k: Key, e: Peer) => now - e.lastSeen <= TTL);
      case RowRemoved(key) => WithoutIsFilter(t.keys, key, (k: Key) => k in r.vals);
    }
  }

  lemma KeptKeys(t: Table, p: (Key, Peer) -> bool)
    ensures var r := Keep(t, p); r.keys == Filter(t.keys, (k: Key) => k in r.vals)
  {
    var r := Keep(t, p);
    forall k | k in t.keys
      ensures Passing(t, p)(k) == (k in r.vals)
    {
      assert k in t.vals;
    }
    FilterSame(t.keys, Passing(t, p), (k: Key) => k in r.vals);
  }

  lemma {:induction false} WithoutIsFilter(s: seq<Key>, k: Key, p: Key -> bool)
    requires forall x :: x in s ==> p(x) == (x != k)
    ensures Without(s, k) == Filter(s, p)
    decreases |s|
  {
    if s != [] {
      WithoutIsFilter(s[1..], k, p);
    }
  }

  // ----- probes -----

  /** The sum of a sequence: nothing, one number, and two parts put together. */
  lemma {:induction false} SumMeaning(a: seq<int>, x: int, b: seq<int>)
    ensures Sum([]) == 0 && Sum([x]) == x && Sum(a + b) == Sum(a) + Sum(b)
    decreases |b|
  {
    assert [x][..0] == [];
    if b == [] {
      assert a + b == a;
    } else {
      SumMeaning(a, x, b[..|b| - 1]);
      assert (a + b)[..|a + b| - 1] == a + b[..|b| - 1];
    }
  }

  /** m is the mean of the samples, rounded toward zero. */
  ghost predicate MeanOf(m: int, samples: seq<int>) {
    && samples != []
    && (if Sum(samples) >= 0 then m * |samples| <= Sum(samples) < (m + 1) * |samples|
        else (m - 1) * |samples| < Sum(samples) <= m * |samples|)
  }

  lemma AvgIff(samples: seq<int>)
    ensures AvgMs(samples).None? <==> samples == []
    ensures samples != [] ==> MeanOf(AvgMs(samples).value, samples)
  {
    if samples != [] {
      RoundedTowardZero(Sum(samples), |samples|);
    }
  }

  lemma RoundedTowardZero(a: int, b: nat)
    requires b > 0
    ensures var q := Truncated(a, b);
            if a >= 0 then q * b <= a < (q + 1) * b else (q - 1) * b < a <= q * b
  {
    if a >= 0 {
      assert a == (a / b) * b + a % b;
    } else {
      var q := (-a) / b;
      assert -a == q * b + (-a) % b;
      assert -a < (q + 1) * b;
      assert (-q - 1) * b == -((q + 1) * b) && (-q) * b == -(q * b);
    }
  }

  /** One probe of a row. A timed answer clears the failures and joins the last six round trips; a failed probe forgets
      them and counts one failure; but any probe within twelve seconds of an announce first counts as a good one, and a
      failed one then counts as nothing more. */
  lemma ProbeIff(e: Peer, rtt: Option<int>, ok: bool, now: Time)
    ensures var q, recent := Probed(e, rtt, ok, now), e.lastSeen != 0.0 && now - e.lastSeen < 12.0;
            && (ok && rtt.Some? ==>
                  && q.failures == 0 && q.lastOk == now && q.avg == AvgMs(q.samples)
                  && exists dropped :: e.probe.samples + [rtt.value] == dropped + q.samples
                                       && (dropped == [] || |q.samples| == 6) && |q.samples| <= 6)
            && (ok && rtt.None? ==>
                  q == e.probe.(failures := if recent then 0 else e.probe.failures, lastOk := if recent then e.lastSeen else e.probe.lastOk))
            && (!ok && recent ==> q == e.probe.(failures := 0, lastOk := e.lastSeen))
            && (!ok && !recent ==> q == Probe([], None, e.probe.failures + 1, e.probe.lastOk))
  {
    if ok && rtt.Some? {
      var all := e.probe.samples + [rtt.value];
      var dropped := if |all| <= 6 then [] else all[..|all| - 6];
      assert all == dropped + LastSamples(all);
    }
  }

  /** A probe result or a cleared round trip reaches every row of its hash and no other, and touches probe state alone. */
  lemma ProbeReaches(s: Service, scope: string, step: Step, k: Key)
    requires (step.ProbeResult? || step.RttCleared?) && k in s.table.vals
    ensures var r, e := Next(s, scope, step).table, s.table.vals[k];
            && r.keys == s.table.keys && k in r.vals
            && r.vals[k] == if step.hash == "" || e.hash != step.hash then e
                            else if step.ProbeResult? then e.(probe := Probed(e, step.rtt, step.ok, step.now))
                            else e.(probe := Probe([], None, e.probe.failures, e.probe.lastOk))
  {
    hide Probed;
    assert s.table.vals[k].(probe := s.table.vals[k].probe) == s.table.vals[k];
  }

  // ----- a store -----

  /** A row that lends its address to an address-less peer of its name or identity. */
  predicate Lends(e: Peer, p: Peer, scope: string) {
    && e.ip != "" && (scope == "" || SameLanScope(e.ip, scope))
    && (e.name == p.name != "" || e.identity == p.identity != "")
  }

  lemma {:induction false} FirstLender(rows: seq<Peer>, p: Peer, scope: string)
    ensures FirstDonor(rows, p, scope)
         == var ds := Filter(rows, (e: Peer) => Lends(e, p, scope)); if ds == [] then None else Some(ds[0])
    decreases |rows|
  {
    hide SameLanScope;
    if rows != [] {
      FirstLender(rows[1..], p, scope);
    }
  }

  /** Who is let in, and how: a serial peer while USB is up, without address; a LAN peer with an address of the scope as it
      is; a LAN peer without one at the address of the first row that can lend it one, and without such a row only when no
      scope is fixed. */
  lemma AdmittedIff(t: Table, local: set<Hash>, env: Env, peer: Peer)
    requires TableOk(t, local, env.scope)
    ensures var a, lenders := Admitted(t, env, peer), Filter(Values(t), (e: Peer) => Lends(e, peer, env.scope));
            if OverSerial(peer) then a == if env.serialActive then Some(peer.(ip := "", serialRns := true)) else None
            else if peer.ip != "" then a == if env.scope == "" || SameLanScope(peer.ip, env.scope) then Some(peer) else None
            else if lenders == [] then a == if env.scope == "" then Some(peer) else None
            else a == Some(peer.(ip := lenders[0].ip, port := lenders[0].port))
  {
    hide SameLanScope, FirstDonor, Filter;
    FirstLender(Values(t), peer, env.scope);
    var lenders := Filter(Values(t), (e: Peer) => Lends(e, peer, env.scope));
    if lenders != [] {
      assert lenders[0] in lenders;
      ValuesIn(t, lenders[0]);
      var k :| k in t.vals && t.vals[k] == lenders[0];
      assert RowOk(local, env.scope, k, t.vals[k]);
    }
  }

  /** A peer without a hash and one of our own are ignored. */
  lemma OwnIgnored(t: Table, local: set<Hash>, env: Env, peer: Peer)
    requires peer.hash in local + {""} || (peer.identity != "" && peer.identity in local)
    ensures Store(t, local, env, peer) == t
  {
  }

  /** A name that tells nothing: empty, or the short form of the hash in any case. */
  predicate Nameless(p: Peer) {
    p.name == "" || p.name == ShortHash(p.hash) || Lower(p.name) == Lower(ShortHash(p.hash))
  }

  /** The row of a stored peer, field by field: its first record as it came, afterwards the newest address, port, sighting
      and real name, and the first identity and key. */
  function RowAfterStore(p: Peer, existing: Option<Peer>, now: Time): Peer {
    match existing
    case None => p.(probe := p.probe.(failures := 0, lastOk := if p.lastSeen == 0.0 then now else p.lastSeen))
    case Some(e) =>
      var moves := p.ip !in {"", e.ip};
      Peer(e.hash, if Nameless(p) then e.name else p.name, e.via, if moves then p.ip else e.ip, if moves then p.port else e.port,
           if e.identity == "" then p.identity else e.identity, if e.pubkey == "" then p.pubkey else e.pubkey,
           e.serialRns, p.lastSeen,
           e.probe.(failures := 0, lastOk := if p.lastSeen == 0.0 then now else p.lastSeen))
  }

  /** What a store of an admitted peer leaves in a row: the peer's own as RowAfterStore says; of every other row that stays, only
      probe state when it is of the same hash, and nothing otherwise. */
  lemma StoreFields(t: Table, local: set<Hash>, env: Env, peer: Peer, k: Key)
    requires TableOk(t, local, env.scope)
    requires peer.hash != "" && !IsLocal(local, peer) && Admitted(t, env, peer).Some?
    ensures var r, p := Store(t, local, env, peer), Admitted(t, env, peer).value;
            && (k == StorageKey(peer) ==> k in r.vals && r.vals[k] == RowAfterStore(p, Get(t, k), env.now))
            && (k != StorageKey(peer) && k in r.vals ==>
                  && k in t.vals
                  && r.vals[k] == if t.vals[k].hash != peer.hash then t.vals[k]
                                  else t.vals[k].(probe := t.vals[k].probe.(failures := 0,
                                         lastOk := if t.vals[k].lastSeen == 0.0 then env.now else t.vals[k].lastSeen)))
  {
    hide InScope, Superseded, Admitted, Store, Merge, Nameless, Insert, Evict, RowAfterStore, TableOk, OneHost, OneName;
    var p := Admitted(t, env, peer).value;
    var key := StorageKey(p);
    AdmittedInScope(t, env, peer);
    StoreInserts(t, local, env, peer);
    var kept := Evict(t, env, p);
    EvictSubset(t, env, p);
    if key in t.vals {
      RowAt(t, local, env.scope, key);
      EvictsIff(t, env, p, key);
    }
    RefreshedIsAfterStore(env, Get(kept, key), p);
    InsertFields(kept, env, p, k);
  }

  /** An announce reaching the service leaves its peer's row so, takes the superseded rows and no other. */
  lemma AnnounceStep(s: Service, scope: string, active: bool, now: Time, peer: Peer, k: Key)
    requires TableOk(s.table, s.local, scope) && peer.hash != "" && !IsLocal(s.local, peer)
    requires Admitted(s.table, Env(scope, active, now), peer).Some?
    ensures var r, p := Next(s, scope, Stored(active, now, peer)), Admitted(s.table, Env(scope, active, now), peer).value;
            && r.local == s.local && StorageKey(peer) in r.table.vals
            && r.table.vals[StorageKey(peer)] == RowAfterStore(p, Get(s.table, StorageKey(peer)), now)
            && (k in s.table.vals ==>
                  (k !in r.table.vals <==>
                    && s.table.vals[k].hash != p.hash && (s.table.vals[k].via == ViaSerial <==> p.via == ViaSerial)
                    && (OneHost(p, s.table.vals[k]) || (OneName(p, s.table.vals[k]) && !active))))
  {
    hide TableOk, Admitted, Store, RowAfterStore, OneHost, OneName, IsLocal;
    StoreFields(s.table, s.local, Env(scope, active, now), peer, StorageKey(peer));
    if k in s.table.vals {
      StoreLosesIff(s.table, s.local, Env(scope, active, now), peer, k);
    }
  }

  lemma RowAt(t: Table, local: set<Hash>, scope: string, k: Key)
    requires TableOk(t, local, scope) && k in t.vals
    ensures StorageKey(t.vals[k]) == k
  {
    assert RowOk(local, scope, k, t.vals[k]);
  }

  lemma RefreshedIsAfterStore(env: Env, existing: Option<Peer>, p: Peer)
    requires p.ip != "" && env.scope != "" ==> InScope(p.ip, env.scope)
    requires existing.Some? ==> existing.value.hash == p.hash
    ensures existing.Some? ==> Merge(env, existing.value, p).Some? && Merge(env, existing.value, p).value.hash == p.hash
    ensures var q := if existing.Some? then Merge(env, existing.value, p).value else p;
            q.(probe := Refreshed(q, env.now)) == RowAfterStore(p, existing, env.now)
  {
    hide InScope, Lower;
  }

  lemma InsertFields(t: Table, env: Env, p: Peer, k: Key)
    requires StorageKey(p) in t.vals ==> Merge(env, t.vals[StorageKey(p)], p).Some? && t.vals[StorageKey(p)].hash == p.hash
    ensures var r, key := Insert(t, env, p), StorageKey(p);
            && key in r.vals
            && (forall x :: x in r.vals <==> x in t.vals || x == key)
            && r.vals[key] == (var q := if key in t.vals then Merge(env, t.vals[key], p).value else p;
                               if q.hash == p.hash then q.(probe := Refreshed(q, env.now)) else q)
            && (k != key && k in t.vals ==>
                  r.vals[k] == if t.vals[k].hash == p.hash then t.vals[k].(probe := Refreshed(t.vals[k], env.now)) else t.vals[k])
  {
    hide Merge;
  }
}
