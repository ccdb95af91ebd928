/** What a discovery report does to one saved contact. */
module ContactRefresh {
  import opened Collections
  import opened LanScope
  import opened Contacts
  import opened ContactStore

  // ----- fields -----

  predicate SameLanSide(a: Contact, b: Contact) {
    && a.lan == b.lan && a.hash == b.hash && a.ip == b.ip && a.port == b.port
    && a.identity == b.identity && a.lanIdentity == b.lanIdentity
  }

  predicate SameSerialSide(a: Contact, b: Contact) {
    a.serial == b.serial && a.serialIdentity == b.serialIdentity
  }

  lemma SerialRoute(n: Contact, r: Report, scope: string)
    requires r.overSerial
    ensures var e := RefreshRoute(n, r, scope);
            SameLanSide(e, n) && e.serial == r.hash && e.name == n.name && e.custom == n.custom
  {
    hide ShouldUpdateIp;
  }

  lemma LanRoute(n: Contact, r: Report, scope: string)
    requires !r.overSerial && r.hash != ""
    ensures var e := RefreshRoute(n, r, scope);
            SameSerialSide(e, n) && Or(e.lan, e.hash) == r.hash && e.name == n.name && e.custom == n.custom
  {
    hide ShouldUpdateIp;
  }

  lemma NameOnly(a: Contact, r: Report)
    ensures RefreshName(a, r).(name := a.name) == a
    ensures a.custom ==> RefreshName(a, r) == a
  {
    hide HashLike, Hashes, ResolveName;
  }

  /** A report over one transport files its hash there, leaves the other transport's fields alone,
      and never renames a record the user named. */
  lemma RefreshTouchesOneTransport(c: Contact, r: Report, scope: string)
    requires r.hash != ""
    ensures var n, e := Normalize(c), Refresh(c, r, scope);
            && r.hash in Hashes(e)
            && (if r.overSerial then SameLanSide(e, n) && e.serial == r.hash
                else SameSerialSide(e, n) && Or(e.lan, e.hash) == r.hash)
            && (n.custom ==> e.name == n.name)
  {
    hide Normalize, RefreshRoute, RefreshName, Normal;
    var n := Normalize(c);
    if r.overSerial {
      SerialRoute(n, r, scope);
    } else {
      LanRoute(n, r, scope);
    }
    NameOnly(RefreshRoute(n, r, scope), r);
    NormalizeIsNormal(Refresh(c, r, scope));
    assert r.hash in RawHashes(Refresh(c, r, scope));
  }

  // ----- addresses -----

  lemma RouteKeepsScope(e: Contact, r: Report, scope: string)
    requires scope != "" && SameLanScope(e.ip, scope)
    ensures SameLanScope(RefreshRoute(e, r, scope).ip, scope)
  {
    assert e.ip != "";
    hide SameLanScope;
  }

  /** What a LAN report with this address leaves of the old one: the new one unless the old is inside the scope and the
      new one is not. */
  predicate Accepted(before: string, given: string, scope: string) {
    given != "" && (before == "" || before == given || scope == "" || SameLanScope(given, scope) || !SameLanScope(before, scope))
  }

  lemma RouteFields(n: Contact, r: Report, scope: string)
    requires r.hash != ""
    ensures var e := RefreshRoute(n, r, scope);
            if r.overSerial then e == n.(serial := r.hash, serialIdentity := Or(r.identity, n.serialIdentity))
            else
              && e.ip == (if Accepted(n.ip, r.ip, scope) then r.ip else n.ip)
              && e.port == (if r.port.Some? then r.port else n.port)
              && e.lanIdentity == Or(r.identity, n.lanIdentity) && e.identity == Or(r.identity, n.identity)
              && (if Or(n.lan, n.hash) == r.hash then e.lan == n.lan && e.hash == n.hash else e.lan == e.hash == r.hash)
  {
    hide SameLanScope;
  }

  /** The name a record has after a report: the reported one when it has none, or only a hash for one and the reported
      name is a real one; the user's own is never touched. */
  function NameAfter(a: Contact, reported: string): string {
    if !a.custom && reported != "" && (a.name == "" || (HashLike(a.name, Hashes(a)) && !HashLike(reported, Hashes(a))))
    then reported else a.name
  }

  lemma NameFields(a: Contact, r: Report)
    requires Normalize(a).name == a.name && Normalize(a).custom == a.custom && Hashes(Normalize(a)) == Hashes(a)
    ensures RefreshName(a, r) == a.(name := NameAfter(a, r.name))
  {
    hide Hashes, HashLike, Normalize;
    assert HashLike("", Hashes(a)) by {
      EmptyHashLike(Hashes(a));
    }
  }

  lemma EmptyHashLike(hs: set<Hash>)
    ensures HashLike("", hs)
  {
  }

  lemma NormalizeNames(c: Contact)
    ensures Normalize(c).name == c.name && Normalize(c).custom == c.custom && Hashes(Normalize(c)) == Hashes(c)
  {
    NormalizeIdempotent(c);
  }

  /** A record after a report, field by field. */
  ghost predicate Refreshed(n: Contact, r: Report, scope: string, e: Contact) {
    && e.custom == n.custom
    && (if r.overSerial then
          && SameLanSide(e, n)
          && e.serial == r.hash && e.serialIdentity == Or(r.identity, n.serialIdentity)
        else
          && SameSerialSide(e, n)
          && Or(e.lan, e.hash) == r.hash
          && e.ip == (if Accepted(n.ip, r.ip, scope) then r.ip else n.ip)
          && e.port == (if r.port.Some? then r.port else n.port)
          && e.lanIdentity == Or(r.identity, n.lanIdentity) && e.identity == Or(r.identity, n.identity))
    && e.name == NameAfter(e.(name := n.name), r.name)
  }

  /** What one report does to every field of a record. */
  lemma RefreshFields(c: Contact, r: Report, scope: string)
    requires r.hash != ""
    ensures Refreshed(Normalize(c), r, scope, Refresh(c, r, scope))
  {
    hide Normalize, RefreshRoute, RefreshName, Hashes, HashLike, Accepted;
    var n := Normalize(c);
    var a := RefreshRoute(n, r, scope);
    RouteFields(n, r, scope);
    NormalizeNames(a);
    NameFields(a, r);
    if r.overSerial {
      SerialRoute(n, r, scope);
    } else {
      LanRoute(n, r, scope);
    }
    assert Refresh(c, r, scope).(name := n.name) == a;
  }

  /** The hashes a record has in each role, or had before where it has none now. */
  function OldAndNew(e: Contact, former: Contact): set<Hash> {
    {Or(e.hash, former.hash), Or(e.lan, former.lan), Or(e.serial, former.serial), Or(e.identity, former.identity),
     Or(e.lanIdentity, former.lanIdentity), Or(e.serialIdentity, former.serialIdentity)} - {""}
  }

  /** A refresh that finds its contact leaves the refreshed record on disk under its primary hash, normalised, and no
      file under another of its hashes, unless the report told nothing new. */
  lemma SyncWrites(s: Store, r: Report, equal: (Hash, Hash) -> bool, scope: string, order: seq<string>, m: Contact)
    requires r.hash != "" && !IsDeleted(s.index, r.hash, r.identity, r.name)
    requires FirstMatch(List(s.files, order).out, r, equal) == Some(m)
    ensures var was, e, files := List(s.files, order).files, Refresh(m, r, scope), Sync(s, r, equal, scope, order).files;
            if e == Normalize(m) && r.identity == "" then files == was
            else
              && Primary(e) in files && files[Primary(e)] == Normalize(e) && Normalize(e).ip == e.ip && Normalize(e).port == e.port
              && (forall h :: h in Hashes(e) && h != Primary(e) ==> h !in files)
              && (forall f :: f in files && f != Primary(e) ==> f in was && files[f] == was[f])
              && (forall f :: f in was && f != Primary(e) ==> (f !in files <==> f in OldAndNew(Normalize(e), m)))
  {
    hide List, Refresh, FirstMatch, IsDeleted, Normalize, Hashes, Primary, Rewrite, OldAndNew;
    var e := Refresh(m, r, scope);
    RefreshNamed(m, r, scope);
    RewriteIff(List(s.files, order).files, m, e, r.hash);
    NormalizeIp(e);
    NormalizePort(e);
  }

  lemma RewriteIff(was: Files, m: Contact, e: Contact, fallback: Hash)
    requires Primary(e) != ""
    ensures var files := Rewrite(was, m, e, fallback);
            && Primary(e) in files && files[Primary(e)] == Normalize(e)
            && (forall h :: h in Hashes(e) && h != Primary(e) ==> h !in files)
            && (forall f :: f in files && f != Primary(e) ==> f in was && files[f] == was[f])
            && (forall f :: f in was && f != Primary(e) ==> (f !in files <==> f in OldAndNew(Normalize(e), m)))
  {
    OverlayHashes(Normalize(e), m);
    assert Hashes(e) == RawHashes(Normalize(e));
    hide Normalize, Hashes, RawHashes, Primary, OldAndNew, Overlay;
  }

  lemma RefreshNamed(m: Contact, r: Report, scope: string)
    requires r.hash != ""
    ensures Primary(Refresh(m, r, scope)) != ""
  {
    hide Normalize, RefreshRoute, RefreshName, HashLike, Accepted;
    RefreshFields(m, r, scope);
    PrimaryExists(Refresh(m, r, scope));
  }

  lemma OverlayHashes(e: Contact, former: Contact)
    ensures Hashes(Overlay(e, former)) == OldAndNew(e, former) && RawHashes(e) <= OldAndNew(e, former)
  {
    NormalizeIsNormal(e);
    NormalizeIsNormal(Overlay(e, former));
    hide Normalize;
  }

  lemma NormalizePort(c: Contact)
    ensures Normalize(c).port == c.port
  {
  }

  /** An ordinary move inside the LAN scope reaches the contact: any in-scope address reported for it is the one saved. */
  lemma MovesWithinScope(c: Contact, r: Report, scope: string)
    requires r.hash != "" && !r.overSerial && scope != "" && SameLanScope(r.ip, scope)
    ensures Refresh(c, r, scope).ip == r.ip
  {
    assert r.ip != "";
    hide SameLanScope, Refresh, Normalize, NameAfter;
    RefreshFields(c, r, scope);
  }

  /** A LAN address inside the fixed scope is never moved out of it by a refresh. */
  lemma RefreshKeepsScope(c: Contact, r: Report, scope: string)
    requires scope != "" && SameLanScope(c.ip, scope)
    ensures SameLanScope(Refresh(c, r, scope).ip, scope)
  {
    hide SameLanScope, RefreshRoute, RefreshName;
    NormalizeIp(c);
    RouteKeepsScope(Normalize(c), r, scope);
    NameOnly(RefreshRoute(Normalize(c), r, scope), r);
  }
}
