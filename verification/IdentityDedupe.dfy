/** dedupe_identities: of the rows filed under one deduplication key only the best stays, and only if it is viable. */
module IdentityDedupe {
  import opened Collections
  import opened PeerRecords
  import opened DiscoveryTable
  import opened DiscoveryView

  predicate InGroup(t: Table, g: DedupKey, k: Key) {
    k in t.vals && DedupKeyOf(t.vals[k]) == g
  }

  function Members(t: Table, g: DedupKey): Key -> bool {
    (k: Key) => InGroup(t, g, k)
  }

  /** The rows of a group, in table order. */
  function GroupOf(t: Table, g: DedupKey): (r: seq<Key>)
    ensures forall k :: k in r <==> InGroup(t, g, k)
  {
    Filter(t.keys, Members(t, g))
  }

  /** Which row the comparison loop ends with. */
  function Best(t: Table, ks: seq<Key>, serialActive: bool, scope: string): (w: Key)
    requires ks != [] && forall k :: k in ks ==> k in t.vals
    ensures w in ks
  {
    var n := |ks| - 1;
    if n == 0 then ks[0]
    else
      var w := Best(t, ks[..n], serialActive, scope);
      if Prefers(t.vals[w], t.vals[ks[n]], serialActive, scope) then w else ks[n]
  }

  /** Whether a row survives: alone in its group, or its group's best and viable. */
  predicate Stays(t: Table, serialActive: bool, scope: string, k: Key)
    requires k in t.vals
  {
    var ks := GroupOf(t, DedupKeyOf(t.vals[k]));
    assert k in ks;
    |ks| < 2 || (k == Best(t, ks, serialActive, scope) && Viable(t.vals[k], serialActive, scope))
  }

  function DedupeIdentities(t: Table, serialActive: bool, scope: string): Table {
    Keep(t, (k: Key, e: Peer) => k in t.vals && Stays(t, serialActive, scope, k))
  }

  // ----- what it achieves -----

  function RowsOf(t: Table, ks: seq<Key>): (r: seq<Peer>)
    requires forall k :: k in ks ==> k in t.vals
    ensures |r| == |ks| && forall i :: 0 <= i < |r| ==> r[i] == t.vals[ks[i]]
  {
    seq(|ks|, i requires 0 <= i < |ks| => t.vals[ks[i]])
  }

  /** The surviving row is the fold of the group's rows. */
  lemma {:induction false} BestIsWinner(t: Table, ks: seq<Key>, serialActive: bool, scope: string)
    requires ks != [] && forall k :: k in ks ==> k in t.vals
    ensures t.vals[Best(t, ks, serialActive, scope)] == Winner(RowsOf(t, ks), serialActive, scope)
    decreases |ks|
  {
    if |ks| > 1 {
      var n := |ks| - 1;
      BestIsWinner(t, ks[..n], serialActive, scope);
      BestStep(t, ks, n, serialActive, scope);
      WinnerStep(RowsOf(t, ks), n, serialActive, scope);
      RowsPrefix(t, ks, n);
      hide Best, Winner, Prefers, RowsOf;
    } else {
      hide Prefers;
    }
  }

  lemma RowsPrefix(t: Table, ks: seq<Key>, n: nat)
    requires n < |ks| && forall k :: k in ks ==> k in t.vals
    ensures RowsOf(t, ks)[..n] == RowsOf(t, ks[..n]) && RowsOf(t, ks)[n] == t.vals[ks[n]]
  {
  }

  lemma BestStep(t: Table, ks: seq<Key>, n: nat, serialActive: bool, scope: string)
    requires n == |ks| - 1 > 0 && forall k :: k in ks ==> k in t.vals
    ensures t.vals[Best(t, ks, serialActive, scope)]
         == Prefer(t.vals[Best(t, ks[..n], serialActive, scope)], t.vals[ks[n]], serialActive, scope)
  {
    hide Prefers;
  }

  lemma WinnerStep(rows: seq<Peer>, n: nat, serialActive: bool, scope: string)
    requires n == |rows| - 1 > 0
    ensures Winner(rows, serialActive, scope) == Prefer(Winner(rows[..n], serialActive, scope), rows[n], serialActive, scope)
  {
    hide Prefer;
  }

  lemma BestIsPreferred(t: Table, ks: seq<Key>, serialActive: bool, scope: string, k: Key)
    requires (forall x :: x in ks ==> x in t.vals) && k in ks
    ensures Prefers(t.vals[Best(t, ks, serialActive, scope)], t.vals[k], serialActive, scope)
  {
    hide Prefers, Best, Winner;
    BestIsWinner(t, ks, serialActive, scope);
    var i :| 0 <= i < |ks| && ks[i] == k;
    WinnerIsBest(RowsOf(t, ks), serialActive, scope, i);
  }

  lemma TwoMembers(s: seq<Key>, k: Key, l: Key)
    requires k in s && l in s && k != l
    ensures |s| >= 2
  {
    var i :| 0 <= i < |s| && s[i] == k;
    var j :| 0 <= j < |s| && s[j] == l;
  }

  /** For any table: afterwards no two rows share a group, and no row is new or changed. */
  lemma DedupeLeavesOne(t: Table, serialActive: bool, scope: string, k: Key, l: Key)
    ensures var r := DedupeIdentities(t, serialActive, scope);
            && (k in r.vals ==> k in t.vals && r.vals[k] == t.vals[k])
            && (k in r.vals && l in r.vals && DedupKeyOf(r.vals[k]) == DedupKeyOf(r.vals[l]) ==> k == l)
  {
    hide DedupKeyOf, Best, Viable, GroupOf;
    var r := DedupeIdentities(t, serialActive, scope);
    if k in r.vals && l in r.vals && k != l && DedupKeyOf(r.vals[k]) == DedupKeyOf(r.vals[l]) {
      TwoMembers(GroupOf(t, DedupKeyOf(t.vals[k])), k, l);
      assert false;
    }
  }

  /** Every viable row is still there, or a viable row of its group preferred to it is. */
  lemma DedupeKeepsBest(t: Table, serialActive: bool, scope: string, k: Key) returns (w: Key)
    requires k in t.vals && Viable(t.vals[k], serialActive, scope)
    ensures var r := DedupeIdentities(t, serialActive, scope);
            && w in r.vals && DedupKeyOf(r.vals[w]) == DedupKeyOf(t.vals[k])
            && Viable(r.vals[w], serialActive, scope) && Prefers(r.vals[w], t.vals[k], serialActive, scope)
  {
    hide DedupKeyOf, Best, Viable, GroupOf;
    var ks := GroupOf(t, DedupKeyOf(t.vals[k]));
    assert k in ks;
    w := Best(t, ks, serialActive, scope);
    BestIsPreferred(t, ks, serialActive, scope, k);
    PreferredViable(t.vals[w], t.vals[k], serialActive, scope);
  }

  lemma PreferredViable(a: Peer, b: Peer, serialActive: bool, scope: string)
    requires Prefers(a, b, serialActive, scope) && Viable(b, serialActive, scope)
    ensures Viable(a, serialActive, scope)
  {
  }

  /** On a well-formed table it removes nothing. */
  lemma NothingToDedupe(t: Table, local: set<Hash>, tableScope: string, serialActive: bool, scope: string)
    requires TableOk(t, local, tableScope)
    ensures DedupeIdentities(t, serialActive, scope) == t
  {
    hide TableOk, Best, Viable, DedupKeyOf, GroupOf;
    forall k | k in t.vals
      ensures Stays(t, serialActive, scope, k)
    {
      var ks := GroupOf(t, DedupKeyOf(t.vals[k]));
      GroupDistinct(t, DedupKeyOf(t.vals[k]));
      if |ks| >= 2 {
        assert ks[0] in ks && ks[1] in ks;
        OwnGroup(t, local, tableScope, ks[0], ks[1]);
        assert false;
      }
    }
    var p := (k: Key, e: Peer) => k in t.vals && Stays(t, serialActive, scope, k);
    KeepAll(t, p);
    KeepSame(t, p, (k: Key, e: Peer) => k in t.vals && Stays(t, serialActive, scope, k));
  }

  lemma GroupDistinct(t: Table, g: DedupKey)
    ensures Distinct(GroupOf(t, g))
  {
    FilterDistinct(t.keys, Members(t, g));
  }

  lemma OwnGroup(t: Table, local: set<Hash>, scope: string, k: Key, l: Key)
    requires TableOk(t, local, scope) && k in t.vals && l in t.vals
    requires DedupKeyOf(t.vals[k]) == DedupKeyOf(t.vals[l])
    ensures k == l
  {
    assert RowOk(local, scope, k, t.vals[k]) && RowOk(local, scope, l, t.vals[l]);
  }

  // ----- the loops -----

  /** The rows left once the groups in done are dealt with. */
  function LeftAfter(t: Table, done: set<DedupKey>, serialActive: bool, scope: string): (Key, Peer) -> bool {
    (k: Key, e: Peer) => k in t.vals && (DedupKeyOf(t.vals[k]) !in done || Stays(t, serialActive, scope, k))
  }

  /** The rows left while a group is being compared: of those seen only the winner. */
  function LeftAmid(base: (Key, Peer) -> bool, seen: set<Key>, winner: Key): (Key, Peer) -> bool {
    (k: Key, e: Peer) => base(k, e) && (k !in seen || k == winner)
  }

  /** Whichever of the two rows is removed, the other is the winner of the rows seen. */
  lemma ThinStep(t: Table, base: (Key, Peer) -> bool, seen: set<Key>, winner: Key, k: Key)
    requires winner in seen && k !in seen
    ensures var r := Keep(t, LeftAmid(base, seen, winner));
            && Remove(r, k) == Keep(t, LeftAmid(base, seen + {k}, winner))
            && Remove(r, winner) == Keep(t, LeftAmid(base, seen + {k}, k))
  {
    hide Keep, Remove;
    RemoveKept(t, LeftAmid(base, seen, winner), k, LeftAmid(base, seen + {k}, winner));
    RemoveKept(t, LeftAmid(base, seen, winner), winner, LeftAmid(base, seen + {k}, k));
  }

  lemma ThinStart(t: Table, base: (Key, Peer) -> bool, k: Key)
    ensures Keep(t, base) == Keep(t, LeftAmid(base, {k}, k))
  {
    KeepSame(t, base, LeftAmid(base, {k}, k));
  }

  lemma BestNext(t: Table, ks: seq<Key>, i: nat, serialActive: bool, scope: string)
    requires 0 < i < |ks| && Distinct(ks) && forall k :: k in ks ==> k in t.vals
    ensures (forall k :: k in ks[..i] ==> k in t.vals) && forall k :: k in ks[..i + 1] ==> k in t.vals
    ensures ks[i] !in ks[..i]
    ensures var w := Best(t, ks[..i], serialActive, scope);
            (Best(t, ks[..i + 1], serialActive, scope)
             == if Prefers(t.vals[w], t.vals[ks[i]], serialActive, scope) then w else ks[i])
  {
    hide Prefers;
    assert ks[..i + 1][..i] == ks[..i];
  }

  /** The comparison loop of one group: each row against the best so far, the loser removed. */
  method Thin(t: Table, r: Table, base: (Key, Peer) -> bool, ks: seq<Key>, serialActive: bool, scope: string)
    returns (thinned: Table, winner: Key)
    requires ks != [] && Distinct(ks) && (forall k :: k in ks ==> k in t.vals) && r == Keep(t, base)
    ensures winner == Best(t, ks, serialActive, scope)
    ensures thinned == Keep(t, LeftAmid(base, (set k | k in ks), winner))
  {
    hide Prefers, Remove, Keep, Best, LeftAmid, Distinct, WellFormed;
    winner, thinned := ks[0], r;
    ghost var seen: set<Key> := {ks[0]};
    ThinStart(t, base, ks[0]);
    assert Best(t, ks[..1], serialActive, scope) in ks[..1];
    for i := 1 to |ks|
      invariant winner == Best(t, ks[..i], serialActive, scope)
      invariant forall k :: k in seen <==> k in ks[..i]
      invariant thinned == Keep(t, LeftAmid(base, seen, winner))
    {
      BestNext(t, ks, i, serialActive, scope);
      ThinStep(t, base, seen, winner, ks[i]);
      if Prefers(t.vals[winner], t.vals[ks[i]], serialActive, scope) {
        thinned := Remove(thinned, ks[i]);
      } else {
        thinned, winner := Remove(thinned, winner), ks[i];
      }
      assert ks[..i + 1] == ks[..i] + [ks[i]];
      seen := seen + {ks[i]};
    }
    assert ks[..|ks|] == ks;
    assert seen == set k | k in ks;
  }

  /** What a finished comparison amounts to, with the winner kept and with it removed. */
  lemma ThinnedIs(t: Table, done: set<DedupKey>, g: DedupKey, ks: seq<Key>, serialActive: bool, scope: string)
    requires g !in done && ks == GroupOf(t, g) && |ks| >= 2
    ensures var w := Best(t, ks, serialActive, scope);
            var base := LeftAfter(t, done, serialActive, scope);
            var thinned := Keep(t, LeftAmid(base, (set k | k in ks), w));
            (Keep(t, LeftAfter(t, done + {g}, serialActive, scope))
             == if Viable(t.vals[w], serialActive, scope) then thinned else Remove(thinned, w))
  {
    hide Best, Viable, DedupKeyOf, Keep, Remove, GroupOf;
    var w := Best(t, ks, serialActive, scope);
    var amid := LeftAmid(LeftAfter(t, done, serialActive, scope), (set k | k in ks), w);
    var after := LeftAfter(t, done + {g}, serialActive, scope);
    if Viable(t.vals[w], serialActive, scope) {
      KeepSame(t, amid, after);
    } else {
      RemoveKept(t, amid, w, after);
    }
  }

  /** One group: its losers removed, and its best row too when it is not viable. */
  method ThinGroup(t: Table, r: Table, done: set<DedupKey>, g: DedupKey, ks: seq<Key>, serialActive: bool, scope: string)
    returns (thinned: Table)
    requires r == Keep(t, LeftAfter(t, done, serialActive, scope)) && g !in done && ks == GroupOf(t, g) && ks != []
    ensures thinned == Keep(t, LeftAfter(t, done + {g}, serialActive, scope))
  {
    hide Best, Viable, DedupKeyOf, Keep, Remove, GroupOf, LeftAmid, LeftAfter, Distinct, WellFormed;
    thinned := r;
    if |ks| < 2 {
      AloneStays(t, done, g, ks, serialActive, scope);
    } else {
      GroupDistinct(t, g);
      ThinnedIs(t, done, g, ks, serialActive, scope);
      var winner;
      thinned, winner := Thin(t, r, LeftAfter(t, done, serialActive, scope), ks, serialActive, scope);
      if !Viable(t.vals[winner], serialActive, scope) {
        thinned := Remove(thinned, winner);
      }
    }
  }

  lemma AloneStays(t: Table, done: set<DedupKey>, g: DedupKey, ks: seq<Key>, serialActive: bool, scope: string)
    requires ks == GroupOf(t, g) && |ks| < 2
    ensures Keep(t, LeftAfter(t, done + {g}, serialActive, scope)) == Keep(t, LeftAfter(t, done, serialActive, scope))
  {
    hide Best, Viable, DedupKeyOf, Keep, GroupOf;
    KeepSame(t, LeftAfter(t, done + {g}, serialActive, scope), LeftAfter(t, done, serialActive, scope));
  }

  type Grouped = Dict<DedupKey, seq<Key>>

  /** The first n rows filed under their deduplication keys. */
  ghost predicate Files(t: Table, n: nat, d: Grouped)
    requires n <= |t.keys|
  {
    && (forall g :: g in d.vals ==> d.vals[g] == Filter(t.keys[..n], Members(t, g)) && d.vals[g] != [])
    && (forall k :: k in t.keys[..n] ==> k in t.vals && DedupKeyOf(t.vals[k]) in d.vals)
  }

  method GroupRows(t: Table) returns (grouped: Grouped)
    ensures forall g :: g in grouped.vals ==> grouped.vals[g] == GroupOf(t, g) && grouped.vals[g] != []
    ensures forall k :: k in t.vals ==> DedupKeyOf(t.vals[k]) in grouped.vals
  {
    hide DedupKeyOf, Filter, Members, WellFormed, Files;
    grouped := Empty();
    FilesNone(t);
    for i := 0 to |t.keys|
      invariant Files(t, i, grouped)
    {
      FilesStep(t, i, grouped);
      var k := t.keys[i];
      var g := DedupKeyOf(t.vals[k]);
      grouped := Put(grouped, g, (if g in grouped.vals then grouped.vals[g] else []) + [k]);
    }
    FilesAll(t, grouped);
  }

  lemma FilesNone(t: Table)
    ensures Files(t, 0, Empty())
  {
  }

  lemma FilesAll(t: Table, d: Grouped)
    requires Files(t, |t.keys|, d)
    ensures forall g :: g in d.vals ==> d.vals[g] == GroupOf(t, g) && d.vals[g] != []
    ensures forall k :: k in t.vals ==> DedupKeyOf(t.vals[k]) in d.vals
  {
    hide DedupKeyOf;
    assert t.keys[..|t.keys|] == t.keys;
  }

  lemma FilesStep(t: Table, i: nat, d: Grouped)
    requires i < |t.keys| && Files(t, i, d)
    ensures t.keys[i] in t.vals
    ensures var k := t.keys[i];
            var g := DedupKeyOf(t.vals[k]);
            Files(t, i + 1, Put(d, g, (if g in d.vals then d.vals[g] else []) + [k]))
  {
    hide DedupKeyOf, Filter, Members, WellFormed;
    var k := t.keys[i];
    assert k in t.vals by {
      KeyHeld(t, i);
    }
    var g := DedupKeyOf(t.vals[k]);
    assert t.keys[..i + 1] == t.keys[..i] + [k];
    if g !in d.vals {
      EmptyBefore(t, i, g, d);
    }
    forall h | h in d.vals || h == g
      ensures Filter(t.keys[..i + 1], Members(t, h))
           == if h == g then Filter(t.keys[..i], Members(t, h)) + [k] else Filter(t.keys[..i], Members(t, h))
    {
      MembersSnoc(t, i, h);
    }
  }

  lemma KeyHeld(t: Table, i: nat)
    requires i < |t.keys|
    ensures t.keys[i] in t.vals
  {
    assert t.keys[i] in t.keys;
  }

  lemma EmptyBefore(t: Table, i: nat, g: DedupKey, d: Grouped)
    requires i < |t.keys| && Files(t, i, d) && g !in d.vals
    ensures Filter(t.keys[..i], Members(t, g)) == []
  {
    hide DedupKeyOf;
    FilterNone(t.keys[..i], Members(t, g));
  }

  lemma MembersSnoc(t: Table, i: nat, h: DedupKey)
    requires i < |t.keys| && t.keys[i] in t.vals
    ensures Filter(t.keys[..i + 1], Members(t, h))
         == if DedupKeyOf(t.vals[t.keys[i]]) == h then Filter(t.keys[..i], Members(t, h)) + [t.keys[i]]
            else Filter(t.keys[..i], Members(t, h))
  {
    hide DedupKeyOf, Filter;
    assert t.keys[..i + 1] == t.keys[..i] + [t.keys[i]];
    FilterSnoc(t.keys[..i], t.keys[i], Members(t, h));
  }

  /** dedupe_identities. */
  method DedupeLoops(t: Table, serialActive: bool, scope: string) returns (r: Table)
    ensures r == DedupeIdentities(t, serialActive, scope)
  {
    hide Best, Viable, DedupKeyOf, Keep, GroupOf, Stays;
    var grouped := GroupRows(t);
    r := t;
    var done: set<DedupKey> := {};
    KeepAll(t, LeftAfter(t, {}, serialActive, scope));
    for i := 0 to |grouped.keys|
      invariant r == Keep(t, LeftAfter(t, done, serialActive, scope))
      invariant forall g :: g in done <==> g in grouped.keys[..i]
    {
      var g := grouped.keys[i];
      assert g in grouped.keys;
      assert grouped.keys[..i + 1] == grouped.keys[..i] + [g];
      r := ThinGroup(t, r, done, g, grouped.vals[g], serialActive, scope);
      done := done + {g};
    }
    KeepSame(t, LeftAfter(t, done, serialActive, scope), (k: Key, e: Peer) => k in t.vals && Stays(t, serialActive, scope, k));
  }
}
