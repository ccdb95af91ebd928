/** When a delete is final: what a refresh can still do for the hashes of a deleted contact. */
module ContactFinality {
  import opened Collections
  import opened Contacts
  import opened ContactStore
  import opened ContactRefresh

  lemma {:induction false} FirstMatchListed(out: seq<Contact>, r: Report, equal: (Hash, Hash) -> bool)
    requires FirstMatch(out, r, equal).Some?
    ensures FirstMatch(out, r, equal).value in out
  {
    hide MatchesReport;
    if !MatchesReport(out[0], r, equal) {
      FirstMatchListed(out[1..], r, equal);
    }
  }

  lemma RefreshedPrimary(c: Contact, r: Report, scope: string)
    requires r.hash != ""
    ensures Primary(Refresh(c, r, scope)) != ""
  {
    hide Refresh, Primary, Normalize;
    RefreshTouchesOneTransport(c, r, scope);
    PrimaryExists(Refresh(c, r, scope));
  }

  lemma RewriteHolds(files: Files, former: Contact, e: Contact, fallback: Hash)
    requires Primary(e) != ""
    ensures Hashes(e) <= DirHashes(Rewrite(files, former, e, fallback))
  {
    hide Hashes, Normalize, Load, Overlay, Primary;
    WrittenLoads(e);
    var key := Primary(e);
    var r := Rewrite(files, former, e, fallback);
    assert key in r && r[key] == Normalize(e);
    assert forall x :: x in Hashes(e) ==> x in Hashes(Load(key, r[key]));
  }

  /** An unblocked report that matches some listed contact puts its hash on disk. */
  lemma UnblockedReportChanges(s: Store, r: Report, equal: (Hash, Hash) -> bool, scope: string, order: seq<string>)
    requires "" !in s.files && r.hash != "" && r.hash !in DirHashes(s.files)
    requires !IsDeleted(s.index, r.hash, r.identity, r.name) && FirstMatch(List(s.files, order).out, r, equal).Some?
    ensures r.hash in DirHashes(Sync(s, r, equal, scope, order).files)
  {
    hide List, MatchesReport, Refresh, Hashes, Primary, Rewrite, IsDeleted, Normalize, DirHashes;
    var l := List(s.files, order);
    var m := FirstMatch(l.out, r, equal).value;
    FirstMatchListed(l.out, r, equal);
    ListInventsNothing(s.files, order);
    WithinParts(m, DirHashes(s.files));
    var e := Refresh(m, r, scope);
    RefreshTouchesOneTransport(m, r, scope);
    PrimaryNormalize(m);
    assert e != Normalize(m);
    RefreshedPrimary(m, r, scope);
    RewriteHolds(l.files, m, e, r.hash);
    assert Sync(s, r, equal, scope, order).files == Rewrite(l.files, m, e, r.hash);
  }

  // ----- a non-empty directory lists something -----

  lemma {:induction false} LoadsSome(files: Files, order: seq<string>, f: string)
    requires f in order && f in files
    ensures LoadAll(files, order) != []
  {
    hide Load;
    if order[0] != f {
      LoadsSome(files, order[1..], f);
    }
  }

  lemma GroupsSome(rows: seq<Contact>)
    requires rows != []
    ensures Values(Group(rows).groups) != []
  {
    hide GroupKeys, Merge, Hashes, Normalize, Primary;
    var g := Group(rows[..|rows| - 1]);
    var ks := GroupKeys(rows[|rows| - 1]);
    var groups := Group(rows).groups;
    assert exists k :: k in groups.vals;
    var k :| k in groups.vals;
    assert k in groups.keys;
  }

  lemma ListsSome(files: Files, order: seq<string>, f: string)
    requires f in order && f in files
    ensures List(files, order).out != []
  {
    hide LoadAll, Group, WriteAll, Stray, Keepers, Absorb, Normalize;
    LoadsSome(files, order, f);
    GroupsSome(LoadAll(files, order));
  }

  lemma ListingExists(files: Files) returns (order: seq<string>)
    ensures Lists(order, files)
  {
    order := ListingOf(files.Keys);
  }

  lemma ListingOf(names: set<string>) returns (order: seq<string>)
    ensures Distinct(order) && forall f :: f in order <==> f in names
  {
    if names == {} {
      order := [];
    } else {
      var f :| f in names;
      var rest := ListingOf(names - {f});
      order := rest + [f];
    }
  }

  lemma ListsNothing(order: seq<string>)
    requires Lists(order, map[])
    ensures order == [] && List(map[], order) == Listing([], map[])
  {
    FilterNone(order, (f: string) => true);
    FilterAll(order, (f: string) => true);
    assert Group([]).groups.keys == [];
  }

  // ----- when refreshes for a hash are idle -----

  /** No refresh for the hash changes the store, whatever else it reports and whatever alias test the caller uses. */
  ghost predicate Idle(s: Store, x: Hash) {
    forall r: Report, equal: (Hash, Hash) -> bool, scope: string, order: seq<string> ::
      r.hash == x && Lists(order, s.files) ==> Sync(s, r, equal, scope, order) == s
  }

  function AnyMatch(): (Hash, Hash) -> bool {
    (a: Hash, b: Hash) => true
  }

  /** For a hash no file holds: blocked, or nothing left to match. */
  lemma IdleIff(s: Store, x: Hash)
    requires "" !in s.files && x != "" && x !in DirHashes(s.files)
    ensures Idle(s, x) <==> x in s.index.hashes || s.files == map[]
  {
    hide DirHashes;
    if x in s.index.hashes {
      BlockedIdle(s, x);
    } else if s.files == map[] {
      EmptyIdle(s, x);
    } else {
      var order := ListingExists(s.files);
      var f :| f in s.files;
      ListsSome(s.files, order, f);
      var r := Report(x, false, "", None, "", "");
      BareReport(s.index, x);
      hide List, Sync, IsDeleted, Lists;
      MatchesAny(List(s.files, order).out, r);
      UnblockedReportChanges(s, r, AnyMatch(), "", order);
      assert Sync(s, r, AnyMatch(), "", order) != s;
      NotIdle(s, r, AnyMatch(), "", order);
    }
  }

  lemma NotIdle(s: Store, r: Report, equal: (Hash, Hash) -> bool, scope: string, order: seq<string>)
    requires Lists(order, s.files) && Sync(s, r, equal, scope, order) != s
    ensures !Idle(s, r.hash)
  {
    hide Sync, Lists;
  }

  lemma BlockedIdle(s: Store, x: Hash)
    requires x != "" && x in s.index.hashes
    ensures Idle(s, x)
  {
    hide List, Lists, Rewrite, Refresh, FirstMatch;
  }

  lemma EmptyIdle(s: Store, x: Hash)
    requires s.files == map[]
    ensures Idle(s, x)
  {
    hide IsDeleted, Rewrite, Refresh;
    forall r: Report, equal: (Hash, Hash) -> bool, scope: string, order: seq<string> | r.hash == x && Lists(order, s.files)
      ensures Sync(s, r, equal, scope, order) == s
    {
      ListsNothing(order);
    }
  }

  lemma BareReport(idx: Index, x: Hash)
    requires x !in idx.hashes
    ensures !IsDeleted(idx, x, "", "")
  {
  }

  lemma MatchesAny(out: seq<Contact>, r: Report)
    requires out != [] && r.hash != ""
    ensures FirstMatch(out, r, AnyMatch()).Some?
  {
    hide Normalize, Hashes, NamesRelated;
  }

  /** The same for the one alias test the caller uses. */
  ghost predicate IdleFor(s: Store, x: Hash, equal: (Hash, Hash) -> bool) {
    forall r: Report, scope: string, order: seq<string> ::
      r.hash == x && Lists(order, s.files) ==> Sync(s, r, equal, scope, order) == s
  }

  /** No file holds a hash that is blocked as an identity: saving a record unblocks what it holds. */
  ghost predicate IdentitiesClear(s: Store) {
    DirHashes(s.files) !! s.index.identities
  }

  lemma IdentifiedReport(s: Store, x: Hash, order: seq<string>, equal: (Hash, Hash) -> bool)
    requires "" !in s.files && x != "" && x !in s.index.hashes && IdentitiesClear(s) && List(s.files, order).out != []
    ensures var r := Report(x, false, "", None, Primary(List(s.files, order).out[0]), "");
            !IsDeleted(s.index, r.hash, r.identity, r.name) && FirstMatch(List(s.files, order).out, r, equal).Some?
  {
    hide List, Hashes, Primary, Normalize, DirHashes;
    var m := List(s.files, order).out[0];
    ListInventsNothing(s.files, order);
    WithinParts(m, DirHashes(s.files));
    PrimaryIsHash(m);
    PrimaryNormalize(m);
  }

  lemma NotIdleFor(s: Store, r: Report, equal: (Hash, Hash) -> bool, scope: string, order: seq<string>)
    requires Lists(order, s.files) && Sync(s, r, equal, scope, order) != s
    ensures !IdleFor(s, r.hash, equal)
  {
    hide Sync, Lists;
  }

  /** For a hash no file holds, and whatever the alias test: blocked, or nothing left to match. The changing report
      names a remaining contact's own primary hash as its identity. */
  lemma IdleForIff(s: Store, x: Hash, equal: (Hash, Hash) -> bool)
    requires "" !in s.files && x != "" && x !in DirHashes(s.files) && IdentitiesClear(s)
    ensures IdleFor(s, x, equal) <==> x in s.index.hashes || s.files == map[]
  {
    hide DirHashes, Sync, IdentitiesClear, Lists;
    IdleIff(s, x);
    if x !in s.index.hashes && s.files != map[] {
      var order := ListingExists(s.files);
      var f :| f in s.files;
      ListedFile(s.files, order, f);
      ListsSome(s.files, order, f);
      var r := Report(x, false, "", None, Primary(List(s.files, order).out[0]), "");
      IdentifiedReport(s, x, order, equal);
      hide List, IsDeleted, Primary, FirstMatch;
      UnblockedReportChanges(s, r, equal, "", order);
      NotIdleFor(s, r, equal, "", order);
    }
  }

  lemma ListedFile(files: Files, order: seq<string>, f: string)
    requires Lists(order, files) && f in files
    ensures f in order
  {
  }

  // ----- deleting -----

  /** Runs of refreshes for these hashes leave the store alone. */
  ghost predicate Final(s: Store, hs: set<Hash>) {
    forall reports: seq<Report>, equal: (Hash, Hash) -> bool, scope: string, orders: seq<seq<string>> ::
      RunFor(s, hs, reports, orders) ==> SyncAll(s, reports, equal, scope, orders) == s
  }

  ghost predicate RunFor(s: Store, hs: set<Hash>, reports: seq<Report>, orders: seq<seq<string>>) {
    && |orders| == |reports|
    && (forall i :: 0 <= i < |reports| ==> reports[i].hash in hs)
    && (forall i :: 0 <= i < |orders| ==> Lists(orders[i], s.files))
  }

  lemma {:induction false} IdleRun(s: Store, hs: set<Hash>, reports: seq<Report>, equal: (Hash, Hash) -> bool,
                                   scope: string, orders: seq<seq<string>>)
    requires (forall x :: x in hs ==> Idle(s, x)) && RunFor(s, hs, reports, orders)
    ensures SyncAll(s, reports, equal, scope, orders) == s
    decreases |reports|
  {
    hide Sync, Lists;
    if reports != [] {
      assert Idle(s, reports[0].hash);
      IdleRun(s, hs, reports[1..], equal, scope, orders[1..]);
    }
  }

  lemma FinalIffIdle(s: Store, hs: set<Hash>)
    ensures Final(s, hs) <==> forall x :: x in hs ==> Idle(s, x)
  {
    hide Sync, Lists, Idle;
    if forall x :: x in hs ==> Idle(s, x) {
      forall reports: seq<Report>, equal: (Hash, Hash) -> bool, scope: string, orders: seq<seq<string>> | RunFor(s, hs, reports, orders)
        ensures SyncAll(s, reports, equal, scope, orders) == s
      {
        IdleRun(s, hs, reports, equal, scope, orders);
      }
    }
    if Final(s, hs) {
      forall x | x in hs
        ensures Idle(s, x)
      {
        FinalIdle(s, hs, x);
      }
    }
  }

  lemma FinalIdle(s: Store, hs: set<Hash>, x: Hash)
    requires Final(s, hs) && x in hs
    ensures Idle(s, x)
  {
    hide Sync, Lists;
    forall r: Report, equal: (Hash, Hash) -> bool, scope: string, order: seq<string> | r.hash == x && Lists(order, s.files)
      ensures Sync(s, r, equal, scope, order) == s
    {
      assert RunFor(s, hs, [r], [order]);
      assert SyncAll(s, [r], equal, scope, [order]) == s;
      assert [r][1..] == [] && [order][1..] == [];
      assert SyncAll(s, [r], equal, scope, [order]) == SyncAll(Sync(s, r, equal, scope, order), [], equal, scope, []);
    }
  }

  /** The delete takes every file: each is related to the contact, or none is and the only one is named by the hash. */
  predicate TakesAll(files: Files, c: Contact, h: Hash) {
    forall f :: f in files ==> Related(c, f, files[f]) || (RelatedFiles(files, c) == {} && f == h)
  }

  lemma TakesAllIff(s: Store, h: Hash, order: seq<string>, again: seq<string>, c: Contact)
    requires Found(s, h, order, c)
    ensures Delete(s, h, order, again).files == map[] <==> TakesAll(List(s.files, order).files, c, h)
  {
    hide List, RecordAll, Related;
    var files := List(s.files, order).files;
    var related := RelatedFiles(files, c);
    var taken := if related == {} then {h} else related;
    var r := Delete(s, h, order, again).files;
    assert r == files - taken;
    assert forall f :: f in r <==> f in files && f !in taken;
    assert r == map[] <==> forall f :: f in files ==> f in taken;
  }

  /** A delete that found a contact is final for its hashes exactly when it takes every file, or every hash was already
      blocked or was held by some file when the contact was looked up. */
  lemma DeleteFinalIff(s: Store, h: Hash, order: seq<string>, again: seq<string>, c: Contact)
    requires Found(s, h, order, c) && Lists(again, List(s.files, order).files)
    ensures Final(Delete(s, h, order, again), Hashes(c)) <==>
              || TakesAll(List(s.files, order).files, c, h)
              || Hashes(c) <= s.index.hashes + DirHashes(List(s.files, order).files)
  {
    hide List, Delete, Hashes, Found, Final, Idle, Lists, DirHashes, TakesAll;
    var r := Delete(s, h, order, again);
    DeleteNamed(s, h, order, again, c);
    FinalIffIdle(r, Hashes(c));
    TakesAllIff(s, h, order, again, c);
    forall x | x in Hashes(c)
      ensures Idle(r, x) <==> r.files == map[] || x in s.index.hashes || x in DirHashes(List(s.files, order).files)
    {
      HashesNamed(c);
      DeletedNowhere(s, h, order, again, c, x);
      IdleIff(r, x);
      ContactBlockedIff(s, h, order, again, c, x);
    }
  }

  /** Runs of refreshes for these hashes, with the caller's alias test, leave the store alone. */
  ghost predicate FinalFor(s: Store, hs: set<Hash>, equal: (Hash, Hash) -> bool) {
    forall reports: seq<Report>, scope: string, orders: seq<seq<string>> ::
      RunFor(s, hs, reports, orders) ==> SyncAll(s, reports, equal, scope, orders) == s
  }

  lemma FinalForIdle(s: Store, hs: set<Hash>, equal: (Hash, Hash) -> bool, x: Hash)
    requires FinalFor(s, hs, equal) && x in hs
    ensures IdleFor(s, x, equal)
  {
    hide Sync, Lists;
    forall r: Report, scope: string, order: seq<string> | r.hash == x && Lists(order, s.files)
      ensures Sync(s, r, equal, scope, order) == s
    {
      assert RunFor(s, hs, [r], [order]);
      assert SyncAll(s, [r], equal, scope, [order]) == s;
      assert [r][1..] == [] && [order][1..] == [];
      assert SyncAll(s, [r], equal, scope, [order]) == SyncAll(Sync(s, r, equal, scope, order), [], equal, scope, []);
    }
  }

  /** The same for the alias test the caller uses, when no file left holds a blocked identity. */
  lemma DeleteFinalForIff(s: Store, h: Hash, order: seq<string>, again: seq<string>, c: Contact, equal: (Hash, Hash) -> bool)
    requires Found(s, h, order, c) && Lists(again, List(s.files, order).files)
    requires IdentitiesClear(Delete(s, h, order, again))
    ensures FinalFor(Delete(s, h, order, again), Hashes(c), equal) <==>
              || TakesAll(List(s.files, order).files, c, h)
              || Hashes(c) <= s.index.hashes + DirHashes(List(s.files, order).files)
  {
    hide List, Delete, Hashes, Found, Idle, IdleFor, Lists, DirHashes, TakesAll, IdentitiesClear;
    var r := Delete(s, h, order, again);
    DeleteFinalIff(s, h, order, again, c);
    TakesAllIff(s, h, order, again, c);
    DeleteNamed(s, h, order, again, c);
    if FinalFor(r, Hashes(c), equal) && r.files != map[] {
      forall x | x in Hashes(c)
        ensures x in s.index.hashes || x in DirHashes(List(s.files, order).files)
      {
        HashesNamed(c);
        DeletedNowhere(s, h, order, again, c, x);
        FinalForIdle(r, Hashes(c), equal, x);
        IdleForIff(r, x, equal);
        ContactBlockedIff(s, h, order, again, c, x);
      }
    }
  }

  lemma HashesNamed(c: Contact)
    ensures "" !in Hashes(c)
  {
    hide Normalize;
  }

  lemma DeletedNowhere(s: Store, h: Hash, order: seq<string>, again: seq<string>, c: Contact, x: Hash)
    requires Found(s, h, order, c) && x in Hashes(c)
    ensures x !in DirHashes(Delete(s, h, order, again).files)
  {
    hide List, Delete, Hashes, Found, Load;
    var r := Delete(s, h, order, again);
    if x in DirHashes(r.files) {
      var f, y :| f in r.files && y in Hashes(Load(f, r.files[f])) && y == x;
      DeleteLeavesNoFile(s, h, order, again, c, f);
      assert false;
    }
  }
}
