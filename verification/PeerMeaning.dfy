/** The tests on discovery rows said of their fields, and the two passes of get_peers on rows of any kind. */
module PeerMeaning {
  import opened Collections
  import opened LanScope
  import opened Names
  import opened PeerRecords
  import opened DiscoveryTable
  import opened DiscoveryView

  // ----- one row -----

  /** A serial row can be reached while USB is up, a LAN row at an address of the scope, or any address without one. */
  lemma ViableIff(p: Peer, serialActive: bool, scope: string)
    ensures Viable(p, serialActive, scope) <==>
              if p.via == ViaSerial then serialActive else p.ip != "" && (scope == "" || SameLanScope(p.ip, scope))
  {
  }

  /** What each fact is worth: serial 22, an announce or beacon 20, a key 8, a full-length hash 5, a name of its own 3, an
      address 2, and a row without any of them nothing. */
  lemma RankGains(p: Peer)
    ensures var named := p.name != "" && !(p.hash <= p.name || (|p.hash| > 8 && p.hash[..8] <= p.name));
            var bare := p.(via := Blank, pubkey := "", ip := "", name := "");
            && Rank(bare) == (if |p.hash| < 32 then 0 else 5)
            && Rank(bare.(via := p.via)) - Rank(bare) == (match p.via case ViaSerial => 22 case Rns => 20 case Beacon => 20 case _ => 0)
            && Rank(bare.(name := p.name)) - Rank(bare) == (if named then 3 else 0)
            && Rank(p) - Rank(p.(pubkey := "")) == (if p.pubkey == "" then 0 else 8)
            && Rank(p) - Rank(p.(ip := "")) == (if p.ip == "" then 0 else 2)
            && Rank(p) - Rank(p.(via := Blank)) == Rank(bare.(via := p.via)) - Rank(bare)
            && Rank(p) - Rank(p.(name := "")) == Rank(bare.(name := p.name)) - Rank(bare)
  {
  }

  /** Two rows count as one host's for deduplication when their transport is the same and their hash is, or without hashes
      their identity, or without identities the first 48 characters of their key. */
  lemma SameKeyIff(a: Peer, b: Peer)
    ensures DedupKeyOf(a) == DedupKeyOf(b) <==>
              && StorageKey(a) == StorageKey(b)
              && (a.hash == "" ==>
                    && a.identity == b.identity
                    && (a.identity == "" ==> Head(a.pubkey) == Head(b.pubkey)))
  {
  }

  /** The first 48 characters. */
  function Head(s: string): string {
    s[..if |s| < 48 then |s| else 48]
  }

  /** One storage key per hash and transport: serial, hub and link rows apart, every other kind together. */
  lemma StorageKeyIff(a: Peer, b: Peer)
    ensures StorageKey(a) == StorageKey(b) <==>
              && a.hash == b.hash
              && (a.via == b.via || (a.via in {Blank, ViaLan, Rns, Beacon} && b.via in {Blank, ViaLan, Rns, Beacon}))
  {
  }

  // ----- the first pass -----

  /** Every row met is filed under its own key: the pass never meets two hashes under one, so the branches that compare
      identities, keys and sightings of different hashes are never taken. */
  ghost predicate Keyed(d: Deduped) {
    forall k :: k in d.vals ==> DedupKeyOf(d.vals[k]) == k
  }

  lemma SameKeySameHash(a: Peer, b: Peer)
    requires DedupKeyOf(a) == DedupKeyOf(b)
    ensures a.hash == b.hash
  {
  }

  lemma {:induction false} DedupKeyed(rows: seq<Peer>, serialActive: bool, scope: string)
    ensures Keyed(Dedup(rows, serialActive, scope))
    decreases |rows|
  {
    hide Prefers, DedupKeyOf;
    if rows != [] {
      var n := |rows| - 1;
      DedupKeyed(rows[..n], serialActive, scope);
      var d, key := Dedup(rows[..n], serialActive, scope), DedupKeyOf(rows[n]);
      if key in d.vals {
        SameKeySameHash(d.vals[key], rows[n]);
      }
    }
  }

  function WithKey(k: DedupKey): Peer -> bool {
    (p: Peer) => DedupKeyOf(p) == k
  }

  /** The first pass, on rows of any kind: one row for each deduplication key, the one that wins among the rows of that key. */
  lemma {:induction false} DedupWinner(rows: seq<Peer>, serialActive: bool, scope: string, k: DedupKey)
    ensures var d, group := Dedup(rows, serialActive, scope), Filter(rows, WithKey(k));
            && (k in d.vals <==> group != [])
            && (group != [] ==> d.vals[k] == Winner(group, serialActive, scope))
    decreases |rows|
  {
    hide Prefer, DedupKeyOf, DedupStep, Winner, Filter;
    if rows == [] {
      assert Filter(rows, WithKey(k)) == [] by {
        FilterNone(rows, WithKey(k));
      }
    } else {
      var n := |rows| - 1;
      var d, group := Dedup(rows[..n], serialActive, scope), Filter(rows[..n], WithKey(k));
      DedupWinner(rows[..n], serialActive, scope, k);
      DedupKeyed(rows[..n], serialActive, scope);
      DedupStepIs(d, rows[n], serialActive, scope);
      assert rows == rows[..n] + [rows[n]];
      FilterSnoc(rows[..n], rows[n], WithKey(k));
      WinnerSnoc(group, rows[n], serialActive, scope);
    }
  }

  lemma DedupStepIs(d: Deduped, p: Peer, serialActive: bool, scope: string)
    requires Keyed(d)
    ensures var key := DedupKeyOf(p);
            DedupStep(d, p, serialActive, scope)
            == Put(d, key, if key in d.vals then Prefer(d.vals[key], p, serialActive, scope) else p)
  {
    hide Prefer, DedupKeyOf;
    if DedupKeyOf(p) in d.vals {
      SameKeySameHash(d.vals[DedupKeyOf(p)], p);
    }
  }

  lemma WinnerSnoc(group: seq<Peer>, p: Peer, serialActive: bool, scope: string)
    ensures Winner(group + [p], serialActive, scope)
         == if group == [] then p else Prefer(Winner(group, serialActive, scope), p, serialActive, scope)
  {
    hide Prefer;
    assert (group + [p])[..|group|] == group;
  }

  // ----- the second pass -----

  function Counts(all: seq<Peer>, serialActive: bool): Peer -> bool {
    (p: Peer) => p.via == ViaSerial && serialActive
                 && (p.serialRns || forall q :: q in all && q.hash == p.hash ==> q.via == ViaSerial)
  }

  function WithoutIp(rows: seq<Peer>): (r: seq<Peer>)
    ensures |r| == |rows| && forall i :: 0 <= i < |r| ==> r[i] == rows[i].(ip := "")
  {
    seq(|rows|, i requires 0 <= i < |rows| => rows[i].(ip := ""))
  }

  lemma HasLanIff(all: seq<Peer>, hash: Hash)
    ensures HasLanRow(all, hash) <==> exists q :: q in all && q.hash == hash && q.via != ViaSerial
  {
    if q :| q in all && q.hash == hash && q.via != ViaSerial {
      var i :| 0 <= i < |all| && all[i] == q;
    }
  }

  /** The serial rows shown, on rows of any kind: while USB is up, those heard over RNS or without a LAN row of their hash,
      in order and without address. */
  lemma {:induction false} SerialShown(rows: seq<Peer>, all: seq<Peer>, serialActive: bool, scope: string)
    ensures Collapse(rows, all, serialActive, scope).serial == WithoutIp(Filter(rows, Counts(all, serialActive)))
    decreases |rows|
  {
    hide SameIpPreferred, HasLanRow;
    if rows != [] {
      var n := |rows| - 1;
      SerialShown(rows[..n], all, serialActive, scope);
      assert rows == rows[..n] + [rows[n]];
      FilterSnoc(rows[..n], rows[n], Counts(all, serialActive));
      HasLanIff(all, rows[n].hash);
    }
  }

  function AtIp(ip: string): Peer -> bool {
    (p: Peer) => p.via != ViaSerial && p.ip == ip
  }

  /** The fold over the rows of one address: each later row is weighed against the one held so far. */
  function Held(group: seq<Peer>, serialActive: bool, scope: string): Peer
    requires group != []
  {
    var n := |group| - 1;
    if n == 0 then group[0] else SameIpPreferred(group[n], Held(group[..n], serialActive, scope), serialActive, scope)
  }

  lemma HeldSnoc(group: seq<Peer>, p: Peer, serialActive: bool, scope: string)
    ensures Held(group + [p], serialActive, scope)
         == if group == [] then p else SameIpPreferred(p, Held(group, serialActive, scope), serialActive, scope)
  {
    hide SameIpPreferred;
    assert (group + [p])[..|group|] == group;
  }

  lemma CollapseStepIs(s: Shown, p: Peer, all: seq<Peer>, serialActive: bool, scope: string, ip: string)
    requires "" !in s.byIp.vals
    ensures var r := CollapseStep(s, p, all, serialActive, scope).byIp;
            && "" !in r.vals
            && (if AtIp(ip)(p) && ip != "" then
                  ip in r.vals
                  && r.vals[ip] == if ip in s.byIp.vals then SameIpPreferred(p, s.byIp.vals[ip], serialActive, scope) else p
                else (ip in r.vals <==> ip in s.byIp.vals) && (ip in r.vals ==> r.vals[ip] == s.byIp.vals[ip]))
  {
    hide SameIpPreferred, HasLanRow;
  }

  /** Rows of any kind: an address is shown when a LAN row has it, with the row that fold ends with. */
  lemma {:induction false} AddressShown(rows: seq<Peer>, all: seq<Peer>, serialActive: bool, scope: string, ip: string)
    ensures var r, group := Collapse(rows, all, serialActive, scope).byIp, Filter(rows, AtIp(ip));
            && "" !in r.vals
            && (ip in r.vals <==> ip != "" && group != [])
            && (ip in r.vals ==> r.vals[ip] == Held(group, serialActive, scope))
    decreases |rows|
  {
    hide CollapseStep, Held, SameIpPreferred, Filter;
    if rows == [] {
      FilterNone(rows, AtIp(ip));
    } else {
      var n := |rows| - 1;
      var group := Filter(rows[..n], AtIp(ip));
      AddressShown(rows[..n], all, serialActive, scope, ip);
      CollapseStepIs(Collapse(rows[..n], all, serialActive, scope), rows[n], all, serialActive, scope, ip);
      assert rows == rows[..n] + [rows[n]];
      FilterSnoc(rows[..n], rows[n], AtIp(ip));
      HeldSnoc(group, rows[n], serialActive, scope);
    }
  }
}
