/** The contact directory: read with merging, looked up, deleted by relation, refreshed from discovery. */
module ContactStore {
  import opened Collections
  import opened Contacts
  import opened Names

  /** File name to stored record. */
  type Files = map<string, Contact>

  /** The deleted-peer index. */
  datatype Index = Index(hashes: set<Hash>, identities: set<Hash>, names: set<string>)

  datatype Store = Store(files: Files, index: Index)

  /** load_contact: a missing hash or name defaults to the file name. */
  function Load(fname: string, c: Contact): Contact {
    Normalize(c.(hash := Or(c.hash, fname), name := Or(c.name, fname)))
  }

  /** A directory listing: every file once. The source sorts it; the theorems hold for any order. */
  ghost predicate Lists(order: seq<string>, files: Files) {
    Distinct(order) && forall f :: f in order <==> f in files
  }

  function LoadAll(files: Files, order: seq<string>): seq<Contact> {
    if order == [] then []
    else (if order[0] in files then [Load(order[0], files[order[0]])] else []) + LoadAll(files, order[1..])
  }

  // ----- first pass of list_contacts: group by identity, hash pair or name -----

  datatype GroupKey = ByIdent(ident: Hash) | ByPair(lan: Hash, serial: Hash) | ByName(name: string) | Orphan

  function GroupKeys(c: Contact): (ks: seq<GroupKey>)
    ensures ks != []
  {
    var n := Normalize(c);
    var lan := Or(n.lan, n.hash);
    var ks := (if n.identity != "" then [ByIdent(n.identity)] else [])
      + (if lan != "" || n.serial != "" then [ByPair(lan, n.serial)] else [])
      + (if !HashLike(n.name, Hashes(n)) then [ByName(Lower(n.name))] else []);
    if ks == [] then [Orphan] else ks
  }

  /** Groups so far, the group each key belongs to, and file names to drop. */
  datatype Grouping = Grouping(groups: Dict<GroupKey, Contact>, owner: map<GroupKey, GroupKey>, orphans: set<Hash>)

  function FirstOwner(ks: seq<GroupKey>, owner: map<GroupKey, GroupKey>): Option<GroupKey> {
    if ks == [] then None else if ks[0] in owner then Some(owner[ks[0]]) else FirstOwner(ks[1..], owner)
  }

  function Own(ks: seq<GroupKey>, p: GroupKey, owner: map<GroupKey, GroupKey>): map<GroupKey, GroupKey> {
    if ks == [] then owner else Own(ks[1..], p, owner[ks[0] := p])
  }

  function GroupStep(g: Grouping, c: Contact): Grouping {
    var ks := GroupKeys(c);
    var p := FirstOwner(ks, g.owner);
    if p.None? || p.value !in g.groups.vals then
      g.(groups := Put(g.groups, ks[0], Normalize(c)), owner := Own(ks, ks[0], g.owner))
    else
      var m := Merge(g.groups.vals[p.value], c);
      Grouping(Put(g.groups, p.value, m), Own(ks, p.value, g.owner),
               g.orphans + ((Hashes(c) + Hashes(m)) - {Primary(m)}))
  }

  function Group(rows: seq<Contact>): Grouping {
    if rows == [] then Grouping(Empty(), map[], {}) else GroupStep(Group(rows[..|rows| - 1]), rows[|rows| - 1])
  }

  lemma {:induction false} OwnDomain(ks: seq<GroupKey>, p: GroupKey, owner: map<GroupKey, GroupKey>)
    ensures forall k :: k in Own(ks, p, owner) <==> k in owner || k in ks
    ensures forall k :: k in Own(ks, p, owner) ==> Own(ks, p, owner)[k] == p || (k in owner && Own(ks, p, owner)[k] == owner[k])
    decreases |ks|
  {
    if ks != [] {
      OwnDomain(ks[1..], p, owner[ks[0] := p]);
    }
  }

  lemma {:induction false} NoOwner(ks: seq<GroupKey>, owner: map<GroupKey, GroupKey>)
    requires forall k :: k in ks ==> k !in owner
    ensures FirstOwner(ks, owner) == None
    decreases |ks|
  {
    if ks != [] {
      NoOwner(ks[1..], owner);
    }
  }

  lemma {:induction false} OwnerFound(ks: seq<GroupKey>, owner: map<GroupKey, GroupKey>)
    ensures FirstOwner(ks, owner).None? ==> forall k :: k in ks ==> k !in owner
    ensures FirstOwner(ks, owner).Some? ==> exists k :: k in owner && owner[k] == FirstOwner(ks, owner).value
    decreases |ks|
  {
    if ks != [] && ks[0] !in owner {
      OwnerFound(ks[1..], owner);
    }
  }

  lemma GroupSnoc(rows: seq<Contact>, c: Contact)
    ensures Group(rows + [c]) == GroupStep(Group(rows), c)
  {
    hide GroupStep;
    assert (rows + [c])[..|rows|] == rows;
  }

  // ----- second pass: one sweep merging related groups -----

  /** current after absorbing the rows it relates to, the rows left over, and orphaned names. */
  datatype Sweep = Sweep(current: Contact, rest: seq<Contact>, orphans: set<Hash>)

  function SweepStep(s: Sweep, c: Contact): Sweep {
    if ShouldMerge(s.current, c) then
      var m := Merge(s.current, c);
      Sweep(m, s.rest, s.orphans + (Hashes(c) - {Primary(m)}))
    else s.(rest := s.rest + [c])
  }

  function Absorb(current: Contact, rows: seq<Contact>): (s: Sweep)
    ensures |s.rest| <= |rows|
  {
    if rows == [] then Sweep(current, [], {})
    else SweepStep(Absorb(current, rows[..|rows| - 1]), rows[|rows| - 1])
  }

  datatype Swept = Swept(out: seq<Contact>, orphans: set<Hash>)

  function SweepAll(rows: seq<Contact>): Swept
    decreases |rows|
  {
    if rows == [] then Swept([], {})
    else
      var s := Absorb(Normalize(rows[0]), rows[1..]);
      var later := SweepAll(s.rest);
      Swept([s.current] + later.out, s.orphans + later.orphans)
  }

  lemma AbsorbEmpty(current: Contact)
    ensures Absorb(current, []) == Sweep(current, [], {})
  {
  }

  lemma AbsorbSnoc(current: Contact, rows: seq<Contact>, c: Contact)
    ensures Absorb(current, rows + [c]) == SweepStep(Absorb(current, rows), c)
  {
    hide SweepStep;
    assert (rows + [c])[..|rows|] == rows;
  }

  lemma SweepEmpty()
    ensures SweepAll([]) == Swept([], {})
  {
  }

  lemma SweepFirst(c: Contact, rest: seq<Contact>)
    requires Normalize(c) == c
    ensures var s := Absorb(c, rest);
            SweepAll([c] + rest) == Swept([s.current] + SweepAll(s.rest).out, s.orphans + SweepAll(s.rest).orphans)
  {
    hide Absorb, Normalize;
    assert ([c] + rest)[1..] == rest;
  }

  // ----- writing back -----

  function Stray(out: seq<Contact>): set<Hash> {
    if out == [] then {} else (Hashes(out[0]) - {Primary(out[0])}) + Stray(out[1..])
  }

  function Keepers(out: seq<Contact>): set<Hash> {
    if out == [] then {} else {Primary(out[0])} + Keepers(out[1..])
  }

  /** One contact written under its primary hash, files under its other hashes removed. */
  function WriteBack(files: Files, c: Contact, persist: bool): Files {
    var keep := Primary(c);
    (if persist && keep != "" then files[keep := Normalize(c)] else files) - (Hashes(c) - {keep})
  }

  function WriteAll(files: Files, out: seq<Contact>, persist: bool): Files {
    if out == [] then files else WriteBack(WriteAll(files, out[..|out| - 1], persist), out[|out| - 1], persist)
  }

  datatype Listing = Listing(out: seq<Contact>, files: Files)

  /** list_contacts. */
  function List(files: Files, order: seq<string>): Listing {
    var raw := LoadAll(files, order);
    var g := Group(raw);
    var s := SweepAll(Values(g.groups));
    var orphans := g.orphans + s.orphans + Stray(s.out);
    var written := WriteAll(files, s.out, |raw| > |s.out| || orphans != {});
    Listing(s.out, written - (orphans - Keepers(s.out)))
  }

  function FindIn(out: seq<Contact>, h: Hash): (r: Option<Contact>)
    ensures r.Some? ==> h in Hashes(r.value)
  {
    if out == [] then None
    else if h in Hashes(out[0]) then NormalizeIdempotent(out[0]); Some(Normalize(out[0]))
    else FindIn(out[1..], h)
  }

  // ----- deletion -----

  predicate Related(seed: Contact, fname: string, c: Contact) {
    ShouldMerge(seed, Load(fname, c))
  }

  function RelatedFiles(files: Files, seed: Contact): (r: set<string>)
    ensures forall f :: f in r <==> f in files && Related(seed, f, files[f])
  {
    set f | f in files && Related(seed, f, files[f])
  }

  /** _related_contact_files, in listing order. */
  function RelatedNames(files: Files, order: seq<string>, seed: Contact): (r: seq<string>)
    ensures forall f :: f in r <==> f in order && f in files && Related(seed, f, files[f])
  {
    Filter(order, (f: string) => f in files && Related(seed, f, files[f]))
  }

  /** _record_contact_deleted. */
  function Record(idx: Index, c: Contact): Index {
    var n := Normalize(c);
    Index(idx.hashes + Hashes(n),
          if n.identity != "" then idx.identities + {n.identity} else idx.identities,
          if !HashLike(n.name, Hashes(n)) then idx.names + {Lower(n.name)} else idx.names)
  }

  function RecordAll(idx: Index, files: Files, names: seq<string>): Index {
    if names == [] then idx
    else
      var before := RecordAll(idx, files, names[..|names| - 1]);
      var f := names[|names| - 1];
      if f in files then Record(before, Load(f, files[f])) else before
  }

  /** delete_contact, given the order the first and the second directory scan come in. */
  function Delete(s: Store, h: Hash, order: seq<string>, again: seq<string>): Store {
    if h == "" then s
    else
      var l := List(s.files, order);
      var found := FindIn(l.out, h);
      if found.Some? then
        var related := RelatedFiles(l.files, found.value);
        Store(l.files - (if related == {} then {h} else related),
              RecordAll(s.index, l.files, RelatedNames(l.files, again, found.value)))
      else if h in l.files then Store(l.files - {h}, Record(s.index, Load(h, l.files[h])))
      else s.(files := l.files)
  }

  // ----- the block list -----

  /** peer_is_deleted. */
  predicate IsDeleted(idx: Index, hash: Hash, ident: Hash, name: string) {
    || (hash != "" && hash in idx.hashes)
    || (ident != "" && ident in idx.identities)
    || (exists n :: n in idx.names && ((name != "" && n == Lower(name)) || NamesRelated(n, name)))
  }

  /** clear_contact_deleted: hashes and identities of the saved record, never names. */
  function ClearDeleted(idx: Index, saved: Contact, hash: Hash): Index {
    var targets := Hashes(saved) + (if hash != "" then {hash} else {});
    idx.(hashes := idx.hashes - targets, identities := idx.identities - targets)
  }

  // ----- refresh from discovery -----

  /** _contact_matches_discovery_peer; equal is the caller's alias test. */
  predicate MatchesReport(c: Contact, r: Report, equal: (Hash, Hash) -> bool) {
    var n := Normalize(c);
    var lan := Or(n.lan, n.hash);
    && r.hash != ""
    && (|| r.hash in Hashes(n)
        || (r.identity != "" && r.identity in Hashes(n))
        || equal(lan, r.hash) || equal(n.serial, r.hash)
        || (r.identity != "" && n.identity != "" && equal(n.identity, r.identity))
        || (r.ip != "" && n.ip == r.ip)
        || (r.ip != "" && NamesRelated(n.name, r.name))
        || (NamesRelated(n.name, r.name) && lan == n.serial && lan != ""))
  }

  /** The name discovery would give the record, as _resolve_contact_name does for a record the user did not name. */
  function ResolveName(c: Contact, incoming: string): string {
    var n := Normalize(c);
    if n.custom then Or(n.name, incoming)
    else if !HashLike(incoming, Hashes(n)) then incoming
    else if !HashLike(n.name, Hashes(n)) then n.name
    else Or(incoming, n.name)
  }

  /** The transport fields of a record after one report. */
  function RefreshRoute(e: Contact, r: Report, scope: string): Contact {
    if r.overSerial then
      var b := e.(serial := r.hash);
      if r.identity != "" then b.(serialIdentity := r.identity) else b
    else
      var b := if Or(e.lan, e.hash) != r.hash then e.(lan := r.hash, hash := r.hash) else e;
      var d := if ShouldUpdateIp(b.ip, r.ip, scope) then b.(ip := r.ip) else b;
      var f := if r.port.Some? then d.(port := r.port) else d;
      if r.identity != "" then f.(lanIdentity := r.identity, identity := r.identity) else f
  }

  /** The name, unless the user chose it. */
  function RefreshName(a: Contact, r: Report): Contact {
    if r.name == "" || a.custom then a
    else
      var resolved := ResolveName(a, r.name);
      if resolved != "" && (a.name == "" || (HashLike(a.name, Hashes(a)) && !HashLike(resolved, Hashes(a))))
      then a.(name := resolved) else a
  }

  /** The record after one report, before it is written. */
  function Refresh(c: Contact, r: Report, scope: string): Contact {
    RefreshName(RefreshRoute(Normalize(c), r, scope), r)
  }

  function FirstMatch(out: seq<Contact>, r: Report, equal: (Hash, Hash) -> bool): Option<Contact> {
    if out == [] then None else if MatchesReport(out[0], r, equal) then Some(out[0]) else FirstMatch(out[1..], r, equal)
  }

  /** The former record overwritten by the new one: hashes only the former had in a role now empty remain. */
  function Overlay(e: Contact, former: Contact): Contact {
    e.(hash := Or(e.hash, former.hash), lan := Or(e.lan, former.lan), serial := Or(e.serial, former.serial),
       identity := Or(e.identity, former.identity), lanIdentity := Or(e.lanIdentity, former.lanIdentity),
       serialIdentity := Or(e.serialIdentity, former.serialIdentity))
  }

  /** Writing a refreshed record under its primary hash, dropping files under its other hashes. */
  function Rewrite(files: Files, former: Contact, e: Contact, fallback: Hash): Files {
    var key := Or(Primary(e), fallback);
    files[key := Normalize(e)] - (Hashes(Overlay(Normalize(e), former)) - {key})
  }

  /** sync_contact_from_discovery. */
  function Sync(s: Store, r: Report, equal: (Hash, Hash) -> bool, scope: string, order: seq<string>): Store {
    if r.hash == "" || IsDeleted(s.index, r.hash, r.identity, r.name) then s
    else
      var l := List(s.files, order);
      var m := FirstMatch(l.out, r, equal);
      if m.None? then s.(files := l.files)
      else
        var e := Refresh(m.value, r, scope);
        if e == Normalize(m.value) && r.identity == "" then s.(files := l.files)
        else s.(files := Rewrite(l.files, m.value, e, r.hash))
  }

  // ----- reading invents no hash -----

  ghost function DirHashes(files: Files): set<Hash> {
    set f, h | f in files && h in Hashes(Load(f, files[f])) :: h
  }

  /** c has a hash to be filed under, and only hashes of hs. */
  ghost predicate Within(c: Contact, hs: set<Hash>) {
    Hashes(c) <= hs && Primary(c) != ""
  }

  lemma PrimaryExists(c: Contact)
    ensures Primary(c) != "" <==> c.hash != "" || c.lan != "" || c.serial != ""
  {
  }

  lemma {:induction false} LoadAllWithin(files: Files, order: seq<string>)
    requires "" !in files
    ensures forall c :: c in LoadAll(files, order) ==> Within(c, DirHashes(files))
  {
    hide Hashes, Primary, Normalize;
    if order != [] {
      LoadAllWithin(files, order[1..]);
      if order[0] in files {
        var f, c := order[0], files[order[0]];
        LoadWithin(f, c);
        assert forall h :: h in Hashes(Load(f, c)) ==> h in DirHashes(files);
      }
    }
  }

  lemma LoadWithin(f: string, c: Contact)
    requires f != ""
    ensures Primary(Load(f, c)) != ""
  {
    var d := c.(hash := Or(c.hash, f), name := Or(c.name, f));
    PrimaryExists(d);
    PrimaryNormalize(d);
  }

  lemma PrimaryNormalize(c: Contact)
    ensures Primary(Normalize(c)) == Primary(c) && Hashes(Normalize(c)) == Hashes(c)
  {
    NormalizeIdempotent(c);
  }

  lemma MergePrimary(a: Contact, b: Contact)
    requires Primary(a) != ""
    ensures Primary(Merge(a, b)) != ""
  {
    hide Normalize, Primary;
    PrimaryNormalize(a);
    PrimaryExists(Normalize(a));
    var m := Fill(Normalize(a), Normalize(b));
    PrimaryExists(m);
    PrimaryNormalize(m);
  }

  lemma MergeWithin(a: Contact, b: Contact, hs: set<Hash>)
    requires Within(a, hs) && Within(b, hs)
    ensures Within(Merge(a, b), hs) && Within(Normalize(a), hs)
  {
    hide Normalize, Merge, Primary, Hashes;
    MergeHashes(a, b);
    MergePrimary(a, b);
    PrimaryNormalize(a);
  }

  lemma {:induction false} GroupWithin(rows: seq<Contact>, hs: set<Hash>)
    requires forall c :: c in rows ==> Within(c, hs)
    ensures forall k :: k in Group(rows).groups.vals ==> Within(Group(rows).groups.vals[k], hs)
    decreases |rows|
  {
    hide Within, GroupKeys, Hashes;
    if rows != [] {
      var n := |rows| - 1;
      GroupWithin(rows[..n], hs);
      var g := Group(rows[..n]);
      var p := FirstOwner(GroupKeys(rows[n]), g.owner);
      MergeWithin(rows[n], rows[n], hs);
      if p.Some? && p.value in g.groups.vals {
        MergeWithin(g.groups.vals[p.value], rows[n], hs);
      }
    }
  }

  lemma {:induction false} AbsorbWithin(current: Contact, rows: seq<Contact>, hs: set<Hash>)
    requires Within(current, hs) && forall c :: c in rows ==> Within(c, hs)
    ensures var s := Absorb(current, rows); Within(s.current, hs) && forall c :: c in s.rest ==> Within(c, hs)
    decreases |rows|
  {
    hide Within, ShouldMerge, Merge, Hashes;
    if rows != [] {
      var n := |rows| - 1;
      AbsorbWithin(current, rows[..n], hs);
      MergeWithin(Absorb(current, rows[..n]).current, rows[n], hs);
    }
  }

  lemma {:induction false} SweepWithin(rows: seq<Contact>, hs: set<Hash>)
    requires forall c :: c in rows ==> Within(c, hs)
    ensures forall c :: c in SweepAll(rows).out ==> Within(c, hs)
    decreases |rows|
  {
    hide Within, Absorb, Normalize;
    if rows != [] {
      MergeWithin(rows[0], rows[0], hs);
      AbsorbWithin(Normalize(rows[0]), rows[1..], hs);
      SweepWithin(Absorb(Normalize(rows[0]), rows[1..]).rest, hs);
    }
  }

  /** Whatever order the directory is read in, no contact has a hash that no file had. */
  lemma ListInventsNothing(files: Files, order: seq<string>)
    requires "" !in files
    ensures forall c :: c in List(files, order).out ==> Within(c, DirHashes(files))
  {
    hide Hashes, Primary, Within, Group, SweepAll, WriteAll, Stray, Keepers;
    var hs := DirHashes(files);
    var raw := LoadAll(files, order);
    LoadAllWithin(files, order);
    GroupWithin(raw, hs);
    var groups := Values(Group(raw).groups);
    forall c | c in groups
      ensures Within(c, hs)
    {
      ValuesIn(Group(raw).groups, c);
    }
    SweepWithin(groups, hs);
  }

  lemma {:induction false} WriteAllNamed(files: Files, out: seq<Contact>, persist: bool)
    requires "" !in files
    ensures "" !in WriteAll(files, out, persist)
    decreases |out|
  {
    hide Hashes, Primary, Normalize;
    if out != [] {
      WriteAllNamed(files, out[..|out| - 1], persist);
    }
  }

  lemma ListNamed(files: Files, order: seq<string>)
    requires "" !in files
    ensures "" !in List(files, order).files
  {
    hide LoadAll, Group, SweepAll, WriteAll;
    var out := List(files, order).out;
    WriteAllNamed(files, out, true);
    WriteAllNamed(files, out, false);
  }

  lemma FindInNone(out: seq<Contact>, h: Hash)
    requires forall c :: c in out ==> h !in Hashes(c)
    ensures FindIn(out, h) == None
  {
    hide Hashes;
    if out != [] {
      assert out[0] in out;
      FindInNone(out[1..], h);
    }
  }

  // ----- deleting a contact -----

  ghost predicate Found(s: Store, h: Hash, order: seq<string>, c: Contact) {
    h != "" && "" !in s.files && FindIn(List(s.files, order).out, h) == Some(c)
  }

  /** After a delete that found a contact, no file holds any of its hashes. */
  lemma DeleteLeavesNoFile(s: Store, h: Hash, order: seq<string>, again: seq<string>, c: Contact, f: string)
    requires Found(s, h, order, c) && f in Delete(s, h, order, again).files
    ensures var r := Delete(s, h, order, again); Hashes(Load(f, r.files[f])) !! Hashes(c)
  {
    hide List, RecordAll, Load, Hashes;
    var file := List(s.files, order).files[f];
    assert !Related(c, f, file);
    assert Delete(s, h, order, again).files[f] == file;
    forall x | x in Hashes(c)
      ensures x !in Hashes(Load(f, file))
    {
      if x in Hashes(Load(f, file)) {
        SharedHashRelated(c, f, file, x);
      }
    }
  }

  lemma DeleteNamed(s: Store, h: Hash, order: seq<string>, again: seq<string>, c: Contact)
    requires Found(s, h, order, c)
    ensures "" !in Delete(s, h, order, again).files
  {
    hide List, RecordAll, Related;
    ListNamed(s.files, order);
  }

  /** And no later lookup finds any of them, in whatever order the directory is read. */
  lemma DeletedStaysGone(s: Store, h: Hash, order: seq<string>, again: seq<string>, c: Contact,
                         later: seq<string>, other: Hash)
    requires Found(s, h, order, c) && other in Hashes(c)
    ensures FindIn(List(Delete(s, h, order, again).files, later).out, other) == None
  {
    hide List, Delete, Hashes, Found;
    var r := Delete(s, h, order, again);
    DeleteNamed(s, h, order, again, c);
    ListInventsNothing(r.files, later);
    var out := List(r.files, later).out;
    forall x | x in out
      ensures other !in Hashes(x)
    {
      assert Within(x, DirHashes(r.files));
      if other in Hashes(x) {
        assert other in DirHashes(r.files);
        var f, g :| f in r.files && g in Hashes(Load(f, r.files[f])) && g == other;
        DeleteLeavesNoFile(s, h, order, again, c, f);
        assert false;
      }
    }
    FindInNone(out, other);
  }

  /** A file the read leaves as it was, and that is not related to the contact, is untouched; the one exception is
      the file named by the hash asked for, when the read left the contact in no file at all. */
  lemma UnrelatedUntouched(s: Store, h: Hash, order: seq<string>, again: seq<string>, c: Contact, f: string)
    requires Found(s, h, order, c)
    requires f in s.files && f in List(s.files, order).files && List(s.files, order).files[f] == s.files[f]
    requires !Related(c, f, s.files[f])
    ensures var r := Delete(s, h, order, again);
            && (f in r.files <==> f != h || RelatedFiles(List(s.files, order).files, c) != {})
            && (f in r.files ==> r.files[f] == s.files[f])
  {
    hide List, RecordAll, Related;
  }

  // ----- the block list -----

  lemma {:induction false} RecordAllHashes(idx: Index, files: Files, names: seq<string>, h: Hash)
    ensures h in RecordAll(idx, files, names).hashes <==>
              h in idx.hashes || exists f :: f in names && f in files && h in Hashes(Load(f, files[f]))
    decreases |names|
  {
    hide Hashes, Load, HashLike;
    if names != [] {
      var n := |names| - 1;
      RecordAllHashes(idx, files, names[..n], h);
      assert names == names[..n] + [names[n]];
      if names[n] in files {
        LoadNormal(names[n], files[names[n]]);
      }
    }
  }

  lemma LoadNormal(f: string, c: Contact)
    ensures Hashes(Normalize(Load(f, c))) == Hashes(Load(f, c))
  {
    hide RawHashes;
    NormalizeIdempotent(c.(hash := Or(c.hash, f), name := Or(c.name, f)));
    NormalizeIdempotent(Load(f, c));
  }

  /** What a delete blocks: exactly the hashes of the files it removes, on top of those already blocked. */
  lemma BlockedExactly(s: Store, h: Hash, order: seq<string>, again: seq<string>, c: Contact, other: Hash)
    requires Found(s, h, order, c) && Lists(again, List(s.files, order).files)
    ensures var l := List(s.files, order);
            other in Delete(s, h, order, again).index.hashes <==>
              other in s.index.hashes
              || exists f :: f in RelatedFiles(l.files, c) && other in Hashes(Load(f, l.files[f]))
  {
    hide List, Hashes, Load, Related;
    var l := List(s.files, order);
    var names := RelatedNames(l.files, again, c);
    RecordAllHashes(s.index, l.files, names, other);
    assert forall f :: f in names <==> f in RelatedFiles(l.files, c);
  }

  /** A hash of the deleted contact is blocked exactly when it was already, or some file still held it after the read. */
  lemma ContactBlockedIff(s: Store, h: Hash, order: seq<string>, again: seq<string>, c: Contact, other: Hash)
    requires Found(s, h, order, c) && Lists(again, List(s.files, order).files)
    requires other in Hashes(c)
    ensures other in Delete(s, h, order, again).index.hashes <==>
              other in s.index.hashes || other in DirHashes(List(s.files, order).files)
  {
    hide List, Hashes, Load, Delete, Found;
    BlockedExactly(s, h, order, again, c, other);
    var l := List(s.files, order);
    if other in DirHashes(l.files) {
      var f, g :| f in l.files && g in Hashes(Load(f, l.files[f])) && g == other;
      SharedHashRelated(c, f, l.files[f], other);
      assert f in RelatedFiles(l.files, c);
    }
  }

  lemma SharedHashRelated(seed: Contact, f: string, c: Contact, h: Hash)
    requires h in Hashes(seed) && h in Hashes(Load(f, c))
    ensures Related(seed, f, c)
  {
    hide Hashes, Load;
    assert h in Hashes(seed) * Hashes(Load(f, c));
  }

  /** Refreshes of blocked hashes change nothing, however many come. */
  lemma {:induction false} BlockedSyncsChangeNothing(s: Store, reports: seq<Report>, equal: (Hash, Hash) -> bool,
                                                     scope: string, orders: seq<seq<string>>)
    requires |orders| == |reports|
    requires forall i :: 0 <= i < |reports| ==> reports[i].hash in s.index.hashes
    ensures SyncAll(s, reports, equal, scope, orders) == s
    decreases |reports|
  {
    hide List;
    if reports != [] {
      BlockedSyncsChangeNothing(s, reports[1..], equal, scope, orders[1..]);
    }
  }

  function SyncAll(s: Store, reports: seq<Report>, equal: (Hash, Hash) -> bool, scope: string, orders: seq<seq<string>>): Store
    requires |orders| == |reports|
    decreases |reports|
  {
    if reports == [] then s
    else SyncAll(Sync(s, reports[0], equal, scope, orders[0]), reports[1..], equal, scope, orders[1..])
  }

  /** A delete that found a contact, then any run of refreshes for its hashes: the store stays as the delete left it,
      provided the read before the delete left every one of those hashes in some file. */
  lemma DeletedContactNotRevived(s: Store, h: Hash, order: seq<string>, again: seq<string>, c: Contact,
                                 reports: seq<Report>, equal: (Hash, Hash) -> bool, scope: string, orders: seq<seq<string>>)
    requires Found(s, h, order, c) && Lists(again, List(s.files, order).files)
    requires |orders| == |reports| && forall i :: 0 <= i < |reports| ==> reports[i].hash in Hashes(c)
    requires Hashes(c) <= DirHashes(List(s.files, order).files)
    ensures var r := Delete(s, h, order, again); SyncAll(r, reports, equal, scope, orders) == r
  {
    hide List, Hashes, Delete, Found, Sync;
    forall i | 0 <= i < |reports|
      ensures reports[i].hash in Delete(s, h, order, again).index.hashes
    {
      ContactBlockedIff(s, h, order, again, c, reports[i].hash);
    }
    BlockedSyncsChangeNothing(Delete(s, h, order, again), reports, equal, scope, orders);
  }

  /** Saving a record unblocks its hashes, but a blocked name keeps every related peer blocked. */
  lemma SaveUnblocksHashesNotNames(idx: Index, saved: Contact, hash: Hash, h: Hash, ident: Hash, name: string)
    requires h in Hashes(saved) && (ident == "" || ident in Hashes(saved))
    ensures var r := ClearDeleted(idx, saved, hash);
            && h !in r.hashes
            && (IsDeleted(r, h, ident, name) <==>
                exists n :: n in idx.names && ((name != "" && n == Lower(name)) || NamesRelated(n, name)))
  {
    hide Hashes;
  }

  // ----- when the read keeps a contact on disk -----

  /** No two listed contacts share a hash. */
  ghost predicate Disjoint(out: seq<Contact>) {
    forall i, j :: 0 <= i < j < |out| ==> Hashes(out[i]) !! Hashes(out[j])
  }

  lemma PrimaryIsHash(c: Contact)
    ensures Primary(c) != "" ==> Primary(c) in Hashes(c)
  {
  }

  lemma WrittenLoads(c: Contact)
    requires Primary(c) != ""
    ensures Hashes(Load(Primary(c), Normalize(c))) == Hashes(c)
  {
    NormalizeIsNormal(c);
    var n := Normalize(c);
    NormalizeIsNormal(n.(hash := Or(n.hash, Primary(c)), name := Or(n.name, Primary(c))));
  }

  lemma {:induction false} WriteAllKeeps(files: Files, out: seq<Contact>, i: nat)
    requires Disjoint(out) && i < |out| && Primary(out[i]) != ""
    ensures var w := WriteAll(files, out, true); Primary(out[i]) in w && w[Primary(out[i])] == Normalize(out[i])
    decreases |out|
  {
    hide Hashes, Primary, Normalize;
    var n := |out| - 1;
    PrimaryIsHash(out[i]);
    if i < n {
      assert Hashes(out[i]) !! Hashes(out[n]);
      PrimaryIsHash(out[n]);
      WriteAllKeeps(files, out[..n], i);
    }
  }

  lemma KeepersHold(out: seq<Contact>, i: nat)
    requires i < |out|
    ensures Primary(out[i]) in Keepers(out)
  {
    hide Primary;
    if i > 0 {
      KeepersHold(out[1..], i - 1);
    }
  }

  lemma StrayHolds(out: seq<Contact>, i: nat)
    requires i < |out|
    ensures Hashes(out[i]) - {Primary(out[i])} <= Stray(out)
  {
    hide Primary, Hashes;
    if i > 0 {
      StrayHolds(out[1..], i - 1);
    }
  }

  lemma {:induction false} WriteAllIdle(files: Files, out: seq<Contact>)
    requires Stray(out) == {}
    ensures WriteAll(files, out, false) == files
    decreases |out|
  {
    hide Primary, Hashes, Normalize;
    if out != [] {
      var n := |out| - 1;
      StrayPrefix(out, n);
      StrayHolds(out, n);
      WriteAllIdle(files, out[..n]);
    }
  }

  lemma StrayPrefix(out: seq<Contact>, n: nat)
    requires n <= |out|
    ensures Stray(out[..n]) <= Stray(out)
  {
    hide Primary, Hashes;
    if n > 0 {
      assert out[..n][1..] == out[1..][..n - 1];
      StrayPrefix(out[1..], n - 1);
    }
  }

  lemma FindInSource(out: seq<Contact>, h: Hash) returns (i: nat)
    requires FindIn(out, h).Some?
    ensures i < |out| && Hashes(FindIn(out, h).value) == Hashes(out[i]) && h in Hashes(out[i])
  {
    hide Hashes, Normalize;
    PrimaryNormalize(out[0]);
    if h in Hashes(out[0]) {
      i := 0;
    } else {
      i := FindInSource(out[1..], h);
      i := i + 1;
    }
  }

  lemma PersistedOnDisk(files: Files, out: seq<Contact>, i: nat, drop: set<Hash>)
    requires Disjoint(out) && i < |out| && Primary(out[i]) != "" && drop !! Keepers(out)
    ensures Hashes(out[i]) <= DirHashes(WriteAll(files, out, true) - drop)
  {
    hide Hashes, Primary, Normalize, Load;
    WriteAllKeeps(files, out, i);
    KeepersHold(out, i);
    WrittenLoads(out[i]);
    var r := WriteAll(files, out, true) - drop;
    var f := Primary(out[i]);
    assert f in r && r[f] == Normalize(out[i]);
    assert forall x :: x in Hashes(out[i]) ==> x in Hashes(Load(f, r[f]));
  }

  /** When the contacts read share no hash, the read leaves every hash of the one found in its own file. */
  lemma DisjointReadKeeps(s: Store, h: Hash, order: seq<string>, c: Contact)
    requires Found(s, h, order, c) && Disjoint(List(s.files, order).out)
    ensures Hashes(c) <= DirHashes(List(s.files, order).files)
  {
    hide Hashes, Primary, Group, SweepAll, LoadAll, WriteAll, Stray, Keepers, Disjoint, Within, DirHashes;
    var l := List(s.files, order);
    var i := FindInSource(l.out, h);
    var raw := LoadAll(s.files, order);
    var swept := SweepAll(Values(Group(raw).groups));
    var orphans := Group(raw).orphans + swept.orphans + Stray(l.out);
    ListInventsNothing(s.files, order);
    WithinParts(l.out[i], DirHashes(s.files));
    if |raw| > |l.out| || orphans != {} {
      PersistedOnDisk(s.files, l.out, i, orphans - Keepers(l.out));
    } else {
      WriteAllIdle(s.files, l.out);
      assert l.files == s.files;
    }
  }

  lemma WithinParts(c: Contact, hs: set<Hash>)
    requires Within(c, hs)
    ensures Hashes(c) <= hs && Primary(c) != ""
  {
  }

  /** So a delete after such a read is final for every hash of the contact. */
  lemma DisjointDeleteIsFinal(s: Store, h: Hash, order: seq<string>, again: seq<string>, c: Contact,
                              reports: seq<Report>, equal: (Hash, Hash) -> bool, scope: string, orders: seq<seq<string>>)
    requires Found(s, h, order, c) && Lists(again, List(s.files, order).files)
    requires |orders| == |reports| && forall i :: 0 <= i < |reports| ==> reports[i].hash in Hashes(c)
    requires Disjoint(List(s.files, order).out)
    ensures var r := Delete(s, h, order, again); SyncAll(r, reports, equal, scope, orders) == r
  {
    hide List, Hashes, Delete, Found, Sync, Disjoint;
    DisjointReadKeeps(s, h, order, c);
    DeletedContactNotRevived(s, h, order, again, c, reports, equal, scope, orders);
  }
}
