/** Whether refreshes keep a stored address inside a fixed LAN scope: over runs of the whole store, reads included. */
module ContactScope {
  import opened Collections
  import opened LanScope
  import opened Contacts
  import opened ContactStore
  import opened ContactRefresh
  import opened ContactOrigin
  import opened ContactSettled
  import ContactFinality

  // ----- a directory without outside addresses -----

  predicate CleanIp(ip: string, scope: string) {
    ip == "" || SameLanScope(ip, scope)
  }

  ghost predicate AllClean(files: Files, scope: string) {
    forall f :: f in files ==> CleanIp(files[f].ip, scope)
  }

  lemma FirstIpClean(files: Files, names: seq<string>, scope: string)
    requires AllClean(files, scope)
    ensures CleanIp(FirstIp(files, names), scope)
  {
    hide SameLanScope, FirstIp;
    FirstIpStored(files, names);
  }

  lemma WriteBackClean(files: Files, c: Contact, persist: bool, scope: string)
    requires AllClean(files, scope) && CleanIp(c.ip, scope)
    ensures AllClean(WriteBack(files, c, persist), scope)
  {
    hide Normalize, Primary, Hashes, CleanIp;
    NormalizeIp(c);
  }

  lemma {:induction false} WriteAllClean(files: Files, out: seq<Contact>, persist: bool, scope: string)
    requires AllClean(files, scope) && forall i :: 0 <= i < |out| ==> CleanIp(out[i].ip, scope)
    ensures AllClean(WriteAll(files, out, persist), scope)
    decreases |out|
  {
    hide AllClean, CleanIp, WriteBack;
    if out != [] {
      var n := |out| - 1;
      WriteAllClean(files, out[..n], persist, scope);
      WriteBackClean(WriteAll(files, out[..n], persist), out[n], persist, scope);
    }
  }

  /** Reading such a directory, merges included, leaves it such. */
  lemma ReadKeepsClean(files: Files, order: seq<string>, scope: string)
    requires AllClean(files, scope)
    ensures AllClean(List(files, order).files, scope)
    ensures forall i :: 0 <= i < |List(files, order).out| ==> CleanIp(List(files, order).out[i].ip, scope)
  {
    hide CleanIp, LoadAll, Group, SweepAll, WriteAll, Stray, Keepers, FirstIp, Origins;
    var out := List(files, order).out;
    forall i | 0 <= i < |out|
      ensures CleanIp(out[i].ip, scope)
    {
      ListedAddress(files, order, i);
      FirstIpClean(files, Origins(files, order)[i].from, scope);
    }
    WriteAllClean(files, out, true, scope);
    WriteAllClean(files, out, false, scope);
  }

  // ----- one refresh -----

  /** The report gets past the block list. */
  predicate Acts(s: Store, r: Report) {
    r.hash != "" && !IsDeleted(s.index, r.hash, r.identity, r.name)
  }

  function MatchAt(out: seq<Contact>, r: Report, equal: (Hash, Hash) -> bool): (i: nat)
    ensures i <= |out|
    ensures FirstMatch(out, r, equal) == if i < |out| then Some(out[i]) else None
  {
    if out == [] then 0 else if MatchesReport(out[0], r, equal) then 0 else 1 + MatchAt(out[1..], r, equal)
  }

  lemma RefreshIp(c: Contact, r: Report, scope: string)
    ensures Refresh(c, r, scope).ip == if !r.overSerial && ShouldUpdateIp(c.ip, r.ip, scope) then r.ip else c.ip
  {
    hide SameLanScope, Normalize, RefreshName, ShouldUpdateIp;
    NormalizeIp(c);
    NameOnly(RefreshRoute(Normalize(c), r, scope), r);
  }

  /** The report gives a contact without an address one from outside the scope. */
  predicate Offends(s: Store, r: Report, equal: (Hash, Hash) -> bool, scope: string, order: seq<string>) {
    && Acts(s, r) && !r.overSerial && r.ip != "" && !SameLanScope(r.ip, scope)
    && var m := FirstMatch(List(s.files, order).out, r, equal); m.Some? && m.value.ip == ""
  }

  lemma RewriteIps(files: Files, former: Contact, e: Contact, fallback: Hash)
    ensures var r, key := Rewrite(files, former, e, fallback), Or(Primary(e), fallback);
            && key in r && r[key].ip == e.ip
            && forall f :: f in r && f != key ==> f in files && r[f] == files[f]
  {
    hide Normalize, Primary, Hashes, Overlay;
    NormalizeIp(e);
  }

  lemma CleanRefreshIff(c: Contact, r: Report, scope: string)
    requires scope != "" && CleanIp(c.ip, scope)
    ensures CleanIp(Refresh(c, r, scope).ip, scope) <==> !(!r.overSerial && r.ip != "" && !SameLanScope(r.ip, scope) && c.ip == "")
  {
    hide SameLanScope, Refresh;
    RefreshIp(c, r, scope);
    EmptyOutside(scope);
  }

  lemma EmptyOutside(scope: string)
    ensures !SameLanScope("", scope)
  {
  }

  /** One refresh keeps the directory free of outside addresses exactly when the report does not bring one in. */
  lemma SyncKeepsCleanIff(s: Store, r: Report, equal: (Hash, Hash) -> bool, scope: string, order: seq<string>)
    requires scope != "" && AllClean(s.files, scope)
    ensures AllClean(Sync(s, r, equal, scope, order).files, scope) <==> !Offends(s, r, equal, scope, order)
  {
    hide SameLanScope, List, IsDeleted, Refresh, Rewrite, CleanIp, FirstMatch, Normalize;
    if Acts(s, r) {
      ReadKeepsClean(s.files, order, scope);
      var l := List(s.files, order);
      var i := MatchAt(l.out, r, equal);
      if i < |l.out| {
        var m := l.out[i];
        var e := Refresh(m, r, scope);
        CleanRefreshIff(m, r, scope);
        RewriteIps(l.files, m, e, r.hash);
        RefreshIp(m, r, scope);
        NormalizeIp(m);
        if e == Normalize(m) && r.identity == "" {
          assert CleanIp(e.ip, scope);
        }
      }
    }
  }

  // ----- runs -----

  ghost predicate StaysClean(s: Store, reports: seq<Report>, equal: (Hash, Hash) -> bool, scope: string, orders: seq<seq<string>>)
    requires |orders| == |reports|
    decreases |reports|
  {
    AllClean(s.files, scope)
    && (reports != [] ==> StaysClean(Sync(s, reports[0], equal, scope, orders[0]), reports[1..], equal, scope, orders[1..]))
  }

  ghost predicate NeverOffends(s: Store, reports: seq<Report>, equal: (Hash, Hash) -> bool, scope: string, orders: seq<seq<string>>)
    requires |orders| == |reports|
    decreases |reports|
  {
    reports != [] ==>
      && !Offends(s, reports[0], equal, scope, orders[0])
      && NeverOffends(Sync(s, reports[0], equal, scope, orders[0]), reports[1..], equal, scope, orders[1..])
  }

  /** Over a run of refreshes no stored address ever leaves the scope exactly when no report brings an outside address
      to a contact that has none: merges on read never move one out. */
  lemma {:induction false} RunKeepsCleanIff(s: Store, reports: seq<Report>, equal: (Hash, Hash) -> bool, scope: string,
                                            orders: seq<seq<string>>)
    requires scope != "" && |orders| == |reports| && AllClean(s.files, scope)
    ensures StaysClean(s, reports, equal, scope, orders) <==> NeverOffends(s, reports, equal, scope, orders)
    decreases |reports|
  {
    hide Sync, Offends, AllClean;
    if reports != [] {
      SyncKeepsCleanIff(s, reports[0], equal, scope, orders[0]);
      var t := Sync(s, reports[0], equal, scope, orders[0]);
      if !Offends(s, reports[0], equal, scope, orders[0]) {
        RunKeepsCleanIff(t, reports[1..], equal, scope, orders[1..]);
      }
    }
  }

  lemma {:induction false} StaysCleanEnds(s: Store, reports: seq<Report>, equal: (Hash, Hash) -> bool, scope: string, orders: seq<seq<string>>)
    requires |orders| == |reports| && StaysClean(s, reports, equal, scope, orders)
    ensures AllClean(SyncAll(s, reports, equal, scope, orders).files, scope)
    decreases |reports|
  {
    hide Sync, AllClean;
    if reports != [] {
      StaysCleanEnds(Sync(s, reports[0], equal, scope, orders[0]), reports[1..], equal, scope, orders[1..]);
    }
  }

  lemma {:induction false} InScopeNeverOffends(s: Store, reports: seq<Report>, equal: (Hash, Hash) -> bool, scope: string,
                                               orders: seq<seq<string>>)
    requires |orders| == |reports| && forall i :: 0 <= i < |reports| ==> reports[i].overSerial || CleanIp(reports[i].ip, scope)
    ensures NeverOffends(s, reports, equal, scope, orders)
    decreases |reports|
  {
    hide Sync, SameLanScope, List;
    if reports != [] {
      InScopeNeverOffends(Sync(s, reports[0], equal, scope, orders[0]), reports[1..], equal, scope, orders[1..]);
    }
  }

  /** So reports from inside the scope, which is all that discovery keeps, never move an address out. */
  lemma InScopeReportsKeepScope(s: Store, reports: seq<Report>, equal: (Hash, Hash) -> bool, scope: string,
                                orders: seq<seq<string>>)
    requires scope != "" && |orders| == |reports| && AllClean(s.files, scope)
    requires forall i :: 0 <= i < |reports| ==> reports[i].overSerial || CleanIp(reports[i].ip, scope)
    ensures AllClean(SyncAll(s, reports, equal, scope, orders).files, scope)
  {
    hide SyncAll, AllClean, NeverOffends, StaysClean;
    InScopeNeverOffends(s, reports, equal, scope, orders);
    RunKeepsCleanIff(s, reports, equal, scope, orders);
    StaysCleanEnds(s, reports, equal, scope, orders);
  }

  // ----- one contact in any directory -----

  /** The i-th contact read, after the report has been dealt with. */
  function AfterStep(s: Store, r: Report, equal: (Hash, Hash) -> bool, scope: string, order: seq<string>, i: nat): Contact
    requires i < |List(s.files, order).out|
  {
    var out := List(s.files, order).out;
    if MatchAt(out, r, equal) == i then Refresh(out[i], r, scope) else out[i]
  }

  /** The contact's address is inside the scope: the first one among the records merged into it is, or the report is
      about this contact and brings one that is. */
  predicate Good(s: Store, r: Report, equal: (Hash, Hash) -> bool, scope: string, order: seq<string>, i: nat)
    requires i < |Origins(s.files, order)|
  {
    || SameLanScope(FirstIp(s.files, Origins(s.files, order)[i].from), scope)
    || (MatchAt(List(s.files, order).out, r, equal) == i && !r.overSerial && SameLanScope(r.ip, scope))
  }

  lemma ScopedRefreshIff(c: Contact, r: Report, scope: string)
    requires scope != ""
    ensures SameLanScope(Refresh(c, r, scope).ip, scope) <==>
              SameLanScope(c.ip, scope) || (!r.overSerial && SameLanScope(r.ip, scope))
  {
    hide SameLanScope, Refresh;
    RefreshIp(c, r, scope);
    EmptyOutside(scope);
  }

  lemma StepScopeIff(s: Store, r: Report, equal: (Hash, Hash) -> bool, scope: string, order: seq<string>, i: nat)
    requires scope != "" && i < |List(s.files, order).out|
    ensures i < |Origins(s.files, order)|
    ensures SameLanScope(AfterStep(s, r, equal, scope, order, i).ip, scope) <==> Good(s, r, equal, scope, order, i)
  {
    hide SameLanScope, List, Origins, Refresh, FirstIp, MatchAt;
    ListedAddress(s.files, order, i);
    ScopedRefreshIff(List(s.files, order).out[i], r, scope);
  }

  /** The contact a file is read into. */
  function HomeOf(ts: seq<Tagged>, f: string): (i: nat)
    ensures i <= |ts|
    ensures i < |ts| ==> f in ts[i].from
    ensures i == |ts| ==> forall t :: t in ts ==> f !in t.from
  {
    if ts == [] then 0 else if f in ts[0].from then 0 else 1 + HomeOf(ts[1..], f)
  }

  lemma HomeExists(s: Store, order: seq<string>, f: string)
    requires f in order && f in s.files
    ensures HomeOf(Origins(s.files, order), f) < |List(s.files, order).out| == |Origins(s.files, order)|
  {
    hide List, Origins;
    EveryFileListed(s.files, order, f);
    OriginsErase(s.files, order);
  }

  /** A contact is on disk under its primary hash. */
  predicate OnDisk(files: Files, c: Contact) {
    Primary(c) in files && files[Primary(c)].ip == c.ip
  }

  function Home(s: Store, order: seq<string>, f: string): nat {
    HomeOf(Origins(s.files, order), f)
  }

  /** Where the contact held in file f is held after a report. */
  function NextName(s: Store, r: Report, equal: (Hash, Hash) -> bool, scope: string, order: seq<string>, f: string): string {
    if !Acts(s, r) || Home(s, order, f) >= |List(s.files, order).out| then f
    else Primary(AfterStep(s, r, equal, scope, order, Home(s, order, f)))
  }

  /** At every step the contact followed is on disk after it, under its primary hash. */
  ghost predicate HeldRun(s: Store, reports: seq<Report>, equal: (Hash, Hash) -> bool, scope: string, orders: seq<seq<string>>, f: string)
    requires |orders| == |reports|
    decreases |reports|
  {
    && f in s.files
    && (reports != [] ==>
        var r, order, i := reports[0], orders[0], Home(s, orders[0], f);
        && f in order
        && (Acts(s, r) && i < |List(s.files, order).out| ==>
              OnDisk(Sync(s, r, equal, scope, order).files, AfterStep(s, r, equal, scope, order, i)))
        && HeldRun(Sync(s, r, equal, scope, order), reports[1..], equal, scope, orders[1..], NextName(s, r, equal, scope, order, f)))
  }

  /** The address of the contact followed is inside the scope before and after every step. */
  ghost predicate InScopeRun(s: Store, reports: seq<Report>, equal: (Hash, Hash) -> bool, scope: string, orders: seq<seq<string>>, f: string)
    requires |orders| == |reports|
    decreases |reports|
  {
    && SameLanScope(IpOf(s.files, f), scope)
    && (reports != [] ==>
        var r, order := reports[0], orders[0];
        InScopeRun(Sync(s, r, equal, scope, order), reports[1..], equal, scope, orders[1..], NextName(s, r, equal, scope, order, f)))
  }

  /** No read merges the contact behind a record with an outside address, unless the report brings it back in. */
  ghost predicate GoodRun(s: Store, reports: seq<Report>, equal: (Hash, Hash) -> bool, scope: string, orders: seq<seq<string>>, f: string)
    requires |orders| == |reports|
    decreases |reports|
  {
    reports != [] ==>
      var r, order, i := reports[0], orders[0], Home(s, orders[0], f);
      && (Acts(s, r) && i < |Origins(s.files, order)| ==> Good(s, r, equal, scope, order, i))
      && GoodRun(Sync(s, r, equal, scope, order), reports[1..], equal, scope, orders[1..], NextName(s, r, equal, scope, order, f))
  }

  lemma StepFollowed(s: Store, r: Report, equal: (Hash, Hash) -> bool, scope: string, order: seq<string>, f: string)
    requires scope != "" && f in s.files && f in order && SameLanScope(IpOf(s.files, f), scope)
    requires var i := Home(s, order, f); Acts(s, r) && i < |List(s.files, order).out| ==>
               OnDisk(Sync(s, r, equal, scope, order).files, AfterStep(s, r, equal, scope, order, i))
    ensures var t, g, i := Sync(s, r, equal, scope, order), NextName(s, r, equal, scope, order, f), Home(s, order, f);
            && i < |Origins(s.files, order)|
            && (SameLanScope(IpOf(t.files, g), scope) <==> !Acts(s, r) || Good(s, r, equal, scope, order, i))
  {
    hide SameLanScope, List, Origins, AfterStep, Good, Primary, IsDeleted, HomeOf;
    HomeExists(s, order, f);
    StepScopeIff(s, r, equal, scope, order, Home(s, order, f));
  }

  /** A contact whose stored address is in scope keeps it there through a run of refreshes exactly when at every step
      the first address among the records it is merged from is in scope, or the report brings one that is. */
  lemma {:induction false} RunScopeIff(s: Store, reports: seq<Report>, equal: (Hash, Hash) -> bool, scope: string,
                                       orders: seq<seq<string>>, f: string)
    requires scope != "" && |orders| == |reports|
    requires HeldRun(s, reports, equal, scope, orders, f) && SameLanScope(IpOf(s.files, f), scope)
    ensures InScopeRun(s, reports, equal, scope, orders, f) <==> GoodRun(s, reports, equal, scope, orders, f)
    decreases |reports|
  {
    hide SameLanScope, List, Origins, AfterStep, Good, Sync, Acts, NextName, Home, OnDisk;
    if reports != [] {
      var r, order := reports[0], orders[0];
      StepFollowed(s, r, equal, scope, order, f);
      var t, g := Sync(s, r, equal, scope, order), NextName(s, r, equal, scope, order, f);
      if SameLanScope(IpOf(t.files, g), scope) {
        RunScopeIff(t, reports[1..], equal, scope, orders[1..], g);
      } else {
        NotInScope(t, reports[1..], equal, scope, orders[1..], g);
      }
    }
  }

  lemma NotInScope(s: Store, reports: seq<Report>, equal: (Hash, Hash) -> bool, scope: string, orders: seq<seq<string>>, f: string)
    requires |orders| == |reports| && !SameLanScope(IpOf(s.files, f), scope)
    ensures !InScopeRun(s, reports, equal, scope, orders, f)
  {
    hide SameLanScope, Sync;
  }

  // ----- when the contact followed is on disk -----

  /** The read writes back what it lists. */
  predicate Persists(files: Files, order: seq<string>) {
    var raw := LoadAll(files, order);
    var g := Group(raw);
    var w := SweepAll(Values(g.groups));
    |raw| > |w.out| || g.orphans + w.orphans + Stray(w.out) != {}
  }

  /** After a read that writes back, or of a settled directory, every listed contact is on disk if no two share a hash. */
  lemma ReadOnDisk(files: Files, order: seq<string>, i: nat)
    requires "" !in files && Disjoint(List(files, order).out) && i < |List(files, order).out|
    requires Persists(files, order) || (Settled(files) && Lists(order, files))
    ensures OnDisk(List(files, order).files, List(files, order).out[i]) && Primary(List(files, order).out[i]) != ""
  {
    hide LoadAll, Group, SweepAll, WriteAll, Stray, Keepers, Disjoint, Primary, Hashes, Normalize, Within, DirHashes, Settled;
    var l := List(files, order);
    ListInventsNothing(files, order);
    WithinParts(l.out[i], DirHashes(files));
    if Persists(files, order) {
      WriteAllKeeps(files, l.out, i);
      KeepersHold(l.out, i);
      NormalizeIp(l.out[i]);
    } else {
      hide List;
      SettledReadChangesNothing(files, order);
      SettledFile(files, order[i]);
    }
  }

  lemma RefreshHashes(c: Contact, r: Report, scope: string)
    ensures Hashes(Refresh(c, r, scope)) <= Hashes(c) + {r.hash, r.identity}
  {
    hide Normalize, RefreshRoute, RefreshName, Normal;
    var n := Normalize(c);
    RouteHashes(n, r, scope);
    NameHashes(RefreshRoute(n, r, scope), r);
    NormalizeIsNormal(Refresh(c, r, scope));
  }

  lemma RouteHashes(n: Contact, r: Report, scope: string)
    ensures RawHashes(RefreshRoute(n, r, scope)) <= RawHashes(n) + {r.hash, r.identity}
  {
    hide ShouldUpdateIp;
  }

  lemma NameHashes(a: Contact, r: Report)
    ensures RawHashes(RefreshName(a, r)) == RawHashes(a)
  {
    hide HashLike, Hashes, ResolveName;
  }

  lemma OverlayHashes(e: Contact, former: Contact)
    ensures Hashes(Overlay(Normalize(e), former)) <= Hashes(e) + RawHashes(former)
  {
    hide Normalize, Normal;
    NormalizeIsNormal(e);
    NormalizeIsNormal(Overlay(Normalize(e), former));
  }

  /** Rewriting a refreshed contact leaves every file alone that neither it nor the report names. */
  lemma RewriteSpares(files: Files, m: Contact, r: Report, scope: string, f: string)
    requires f in files && f != r.hash && f != r.identity && f !in Hashes(m) && r.hash != ""
    ensures var t := Rewrite(files, m, Refresh(m, r, scope), r.hash); f in t && t[f] == files[f]
  {
    hide Refresh, Overlay, Normalize, Primary, Normal;
    var e := Refresh(m, r, scope);
    ContactFinality.RefreshedPrimary(m, r, scope);
    PrimaryIsHash(e);
    RefreshHashes(m, r, scope);
    OverlayHashes(e, m);
    NormalizeIsNormal(m);
    hide Hashes;
  }

  /** A contact that is on disk after the read is on disk after the step, when the report names no contact but the one
      it matches. */
  lemma StepOnDisk(s: Store, r: Report, equal: (Hash, Hash) -> bool, scope: string, order: seq<string>, i: nat)
    requires Acts(s, r) && i < |List(s.files, order).out| && Disjoint(List(s.files, order).out)
    requires OnDisk(List(s.files, order).files, List(s.files, order).out[i]) && Primary(List(s.files, order).out[i]) != ""
    requires MatchAt(List(s.files, order).out, r, equal) != i ==>
               r.hash !in Hashes(List(s.files, order).out[i]) && r.identity !in Hashes(List(s.files, order).out[i])
    ensures OnDisk(Sync(s, r, equal, scope, order).files, AfterStep(s, r, equal, scope, order, i))
  {
    hide List, Primary, Hashes, Refresh, Rewrite, Normalize, IsDeleted, MatchAt, FirstMatch;
    var l := List(s.files, order);
    var m := MatchAt(l.out, r, equal);
    if m < |l.out| {
      var e := Refresh(l.out[m], r, scope);
      RewriteIps(l.files, l.out[m], e, r.hash);
      ContactFinality.RefreshedPrimary(l.out[m], r, scope);
      PrimaryNormalize(l.out[m]);
      NormalizeIp(l.out[m]);
      if m != i {
        PrimaryIsHash(l.out[i]);
        assert Hashes(l.out[i]) !! Hashes(l.out[m]);
        RewriteSpares(l.files, l.out[m], r, scope, Primary(l.out[i]));
      }
    }
  }
}
