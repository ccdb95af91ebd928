/** Normalising, comparing and merging saved contacts, said of the records' own fields. */
module ContactFields {
  import opened Collections
  import opened Contacts
  import opened ContactStore
  import opened Names

  // ----- names -----

  /** Lower case leaves no capital letter, and changes nothing but a capital into its small letter. */
  lemma LowerIs(s: string, i: nat)
    requires i < |s|
    ensures |Lower(s)| == |s| && !('A' <= Lower(s)[i] <= 'Z')
    ensures Lower(s)[i] == s[i] || ('A' <= s[i] <= 'Z' && Lower(s)[i] - 'a' == s[i] - 'A')
  {
  }

  /** Two names agree, in any case, as far as the shorter one goes. */
  predicate NamesAgree(a: string, b: string) {
    a != "" && b != "" && forall i :: 0 <= i < |a| && i < |b| ==> Lower(a)[i] == Lower(b)[i]
  }

  lemma RelatedIff(a: string, b: string)
    ensures NamesRelated(a, b) <==> NamesAgree(a, b)
  {
    hide Lower;
    LowerLength(a);
    LowerLength(b);
  }

  lemma LowerLength(s: string)
    ensures |Lower(s)| == |s|
  {
  }

  /** A name is only a hash when it is empty or begins, in any case, with the first eight characters of one of the hashes. */
  lemma HashLikeIff(name: string, hashes: set<Hash>)
    ensures HashLike(name, hashes) <==>
              || name == ""
              || exists h :: h in hashes && h != "" && (|h| <= |name| || 8 <= |name|)
                             && forall i :: 0 <= i < 8 && i < |h| ==> Lower(name)[i] == h[i]
  {
    hide Lower;
    LowerLength(name);
  }

  // ----- normalising -----

  /** Which role each hash ends up in: one filed as both LAN and serial is LAN's when there is an address and serial's
      otherwise; a bare hash is LAN's; and the main hash is the LAN one when missing, and never a copy of the serial one. */
  lemma NormalizeFields(c: Contact)
    ensures var n, twice := Normalize(c), c.serial != "" && c.lan == c.serial;
            && n.serial == (if twice && c.ip != "" then "" else c.serial)
            && n.lan == (if twice && c.ip == "" then "" else if c.lan == "" && c.serial == "" then c.hash else c.lan)
            && n.hash == (if n.lan == "" && c.hash == c.serial then "" else if c.hash == "" then n.lan else c.hash)
            && n.identity == (if n.lan != "" && c.identity == "" then c.lanIdentity else c.identity)
            && n.lanIdentity == c.lanIdentity && n.serialIdentity == c.serialIdentity
            && n.ip == c.ip && n.name == c.name && n.port == c.port && n.custom == c.custom
  {
    SplitFields(c);
    hide SplitDuplicate;
  }

  lemma SplitFields(c: Contact)
    ensures var a, twice := SplitDuplicate(c), c.serial != "" && c.lan == c.serial;
            a == c.(serial := if twice && c.ip != "" then "" else c.serial, lan := if twice && c.ip == "" then "" else c.lan,
                    hash := if twice && c.ip == "" && c.hash == c.serial then "" else c.hash)
  {
  }

  /** A record is filed under its LAN hash, and only without one under its serial hash. */
  lemma PrimaryFields(c: Contact)
    ensures Primary(c) == if Normalize(c).lan != "" then Normalize(c).lan else Normalize(c).serial
  {
    NormalizeFields(c);
  }

  /** A file without a hash or a name takes its file name for it. */
  lemma LoadFields(fname: string, c: Contact)
    ensures Load(fname, c) == Normalize(c.(hash := if c.hash == "" then fname else c.hash,
                                           name := if c.name == "" then fname else c.name))
  {
  }

  // ----- one peer or two -----

  /** Two records are one peer's when they share a hash, or when one has only a LAN hash, the other only a serial one, and
      their names agree. */
  lemma ShouldMergeIff(a: Contact, b: Contact)
    ensures var x, y := Normalize(a), Normalize(b);
            ShouldMerge(a, b) <==>
              || (exists h :: h in RawHashes(a) && h in RawHashes(b))
              || (&& NamesAgree(x.name, y.name)
                  && ((x.lan == "" && x.serial != "" && y.lan != "" && y.serial == "")
                      || (x.lan != "" && x.serial == "" && y.lan == "" && y.serial != "")))
  {
    NormalizeIsNormal(a);
    NormalizeIsNormal(b);
    RelatedIff(Normalize(a).name, Normalize(b).name);
    hide Normalize, RawHashes, NamesAgree, NamesRelated;
    var common := Hashes(a) * Hashes(b);
    if h :| h in RawHashes(a) && h in RawHashes(b) {
      assert h in common;
    }
    if common != {} {
      var h :| h in common;
      assert h in RawHashes(a) && h in RawHashes(b);
    }
  }

  /** The merged record, field by field: the first record's, then the second's; a name the user gave the second wins; and
      of one hash in both roles the address decides, as in normalising. */
  lemma MergeFields(a: Contact, b: Contact)
    ensures var p, s, m := Normalize(a), Normalize(b), Merge(a, b);
            var lan := Or(Or(p.lan, s.lan), Or(p.hash, s.hash));
            var serial := Or(p.serial, s.serial);
            && m.lan == (if lan == serial && m.ip == "" then "" else lan)
            && m.serial == (if lan == serial && m.ip != "" then "" else serial)
            && m.hash == (if m.lan == "" && Or(p.hash, s.hash) == serial then "" else Or(Or(p.hash, s.hash), m.lan))
            && m.lanIdentity == Or(p.lanIdentity, s.lanIdentity) && m.serialIdentity == Or(p.serialIdentity, s.serialIdentity)
            && m.identity == Or(Or(p.identity, s.identity), if m.lan != "" then m.lanIdentity else "")
            && m.ip == Or(p.ip, s.ip) && m.port == (if p.port == None then s.port else p.port)
            && m.custom == (p.custom || s.custom)
            && m.name == (if s.custom then Or(s.name, p.name) else Or(p.name, s.name))
  {
    var f := Fill(Normalize(a), Normalize(b));
    NormalizeFields(f);
    hide Normalize;
  }

  // ----- grouping -----

  /** The keys a row is grouped by: its identity, its pair of hashes, its real name; an orphan has none of them. */
  lemma GroupKeysIff(c: Contact)
    ensures var n, ks := Normalize(c), GroupKeys(c);
            var named := n.name != "" && !HashLike(n.name, RawHashes(c));
            var ident := if n.identity == "" then [] else [ByIdent(n.identity)];
            var pair := if n.lan == n.hash == n.serial == "" then [] else [ByPair(if n.lan == "" then n.hash else n.lan, n.serial)];
            ks == if n.identity == n.lan == n.hash == n.serial == "" && !named then [Orphan]
                  else ident + pair + (if named then [ByName(Lower(n.name))] else [])
  {
    NormalizeIsNormal(c);
    NormalizeIsNormal(Normalize(c));
    hide Normalize, RawHashes, Lower;
    assert HashLike("", RawHashes(c));
  }

  /** A row joins the group of the first of its keys that an earlier row had, and brings its other keys along; a row none
      of whose keys was met starts a group. */
  lemma GroupJoins(g: Grouping, c: Contact, i: nat)
    requires i < |GroupKeys(c)| && GroupKeys(c)[i] in g.owner && g.owner[GroupKeys(c)[i]] in g.groups.vals
    requires forall j :: 0 <= j < i ==> GroupKeys(c)[j] !in g.owner
    ensures var r, ks := GroupStep(g, c), GroupKeys(c);
            var p := g.owner[ks[i]];
            var m := Merge(g.groups.vals[p], c);
            && r.groups.keys == g.groups.keys && r.groups.vals == g.groups.vals[p := m]
            && (forall k :: k in r.owner <==> k in g.owner || k in ks)
            && (forall k :: k in r.owner ==> r.owner[k] == if k in ks then p else g.owner[k])
            && (forall h :: h in r.orphans <==> h in g.orphans || (h in Hashes(c) + Hashes(m) && h != Primary(m)))
  {
    hide Merge, Hashes, Primary, GroupKeys;
    FirstOwnerIs(GroupKeys(c), g.owner, i);
    OwnIs(GroupKeys(c), g.owner[GroupKeys(c)[i]], g.owner);
  }

  lemma GroupStarts(g: Grouping, c: Contact)
    requires forall k :: k in GroupKeys(c) ==> k !in g.owner
    ensures var r, ks := GroupStep(g, c), GroupKeys(c);
            && r.groups == Put(g.groups, ks[0], Normalize(c)) && r.orphans == g.orphans
            && (forall k :: k in r.owner <==> k in g.owner || k in ks)
            && (forall k :: k in r.owner ==> r.owner[k] == if k in ks then ks[0] else g.owner[k])
  {
    hide GroupKeys, Normalize;
    NoOwner(GroupKeys(c), g.owner);
    OwnIs(GroupKeys(c), GroupKeys(c)[0], g.owner);
  }

  lemma {:induction false} FirstOwnerIs(ks: seq<GroupKey>, owner: map<GroupKey, GroupKey>, i: nat)
    requires i < |ks| && ks[i] in owner && forall j :: 0 <= j < i ==> ks[j] !in owner
    ensures FirstOwner(ks, owner) == Some(owner[ks[i]])
    decreases |ks|
  {
    if i > 0 {
      assert ks[0] !in owner;
      FirstOwnerIs(ks[1..], owner, i - 1);
    }
  }

  lemma OwnIs(ks: seq<GroupKey>, p: GroupKey, owner: map<GroupKey, GroupKey>)
    ensures var r := Own(ks, p, owner);
            && (forall k :: k in r <==> k in owner || k in ks)
            && (forall k :: k in r ==> r[k] == if k in ks then p else owner[k])
  {
    forall k
      ensures k in Own(ks, p, owner) <==> k in owner || k in ks
      ensures k in Own(ks, p, owner) ==> Own(ks, p, owner)[k] == if k in ks then p else owner[k]
    {
      OwnAt(ks, p, owner, k);
    }
  }

  lemma {:induction false} OwnAt(ks: seq<GroupKey>, p: GroupKey, owner: map<GroupKey, GroupKey>, k: GroupKey)
    ensures k in Own(ks, p, owner) <==> k in owner || k in ks
    ensures k in Own(ks, p, owner) ==> Own(ks, p, owner)[k] == if k in ks then p else owner[k]
    decreases |ks|
  {
    if ks != [] {
      OwnAt(ks[1..], p, owner[ks[0] := p], k);
    }
  }

  // ----- a report and a contact -----

  /** Which contacts a report is about: one that holds its hash or identity, one the caller's alias test ties to it, one at
      its address, or one whose name agrees with it when it has an address. The test's last clause, for a contact whose two
      hashes are the same, never holds: normalising has told them apart. */
  lemma MatchIff(c: Contact, r: Report, equal: (Hash, Hash) -> bool)
    ensures var n := Normalize(c);
            var lan := if n.lan == "" then n.hash else n.lan;
            MatchesReport(c, r, equal) <==>
              && r.hash != ""
              && (|| r.hash in RawHashes(c) || (r.identity != "" && r.identity in RawHashes(c))
                  || equal(lan, r.hash) || equal(n.serial, r.hash)
                  || (r.identity != "" && n.identity != "" && equal(n.identity, r.identity))
                  || (r.ip != "" && (n.ip == r.ip || NamesAgree(n.name, r.name))))
  {
    NormalizeIsNormal(c);
    assert Or(Normalize(c).lan, Normalize(c).hash) == Normalize(c).serial ==> Normalize(c).serial == "";
    NormalizeIsNormal(Normalize(c));
    RelatedIff(Normalize(c).name, r.name);
    hide Normalize, RawHashes, NamesAgree, NamesRelated;
  }

  /** Which peers are blocked: by hash, by identity, or by a name that a deleted one agrees with. */
  lemma BlockedIff(idx: Index, hash: Hash, ident: Hash, name: string)
    requires forall n :: n in idx.names ==> n != "" && Lower(n) == n
    ensures IsDeleted(idx, hash, ident, name) <==>
              || (hash != "" && hash in idx.hashes)
              || (ident != "" && ident in idx.identities)
              || exists n :: n in idx.names && NamesAgree(n, name)
  {
    hide Lower;
    forall n | n in idx.names
      ensures (name != "" && n == Lower(name)) || NamesRelated(n, name) <==> NamesAgree(n, name)
    {
      RelatedIff(n, name);
      LowerLength(n);
      LowerLength(name);
    }
  }

  /** What a removed file leaves in the block list: all its hashes, its identity, and its name when that is a real one. */
  lemma RecordIff(idx: Index, c: Contact)
    ensures var r, n := Record(idx, c), Normalize(c);
            && r.hashes == idx.hashes + RawHashes(c)
            && r.identities == idx.identities + (if n.identity == "" then {} else {n.identity})
            && r.names == idx.names + (if HashLike(n.name, RawHashes(c)) then {} else {Lower(n.name)})
  {
    NormalizeIsNormal(c);
    NormalizeIsNormal(Normalize(c));
    hide Normalize, RawHashes, Lower;
  }

  /** Deleting by a hash no contact read has: at most the file of that name goes, recorded with its hashes, identity and
      name; every other file and the rest of the block list stay as the read left them, and no hash at all changes nothing. */
  lemma DeleteUnfound(s: Store, h: Hash, order: seq<string>, again: seq<string>)
    requires h == "" || forall c :: c in List(s.files, order).out ==> h !in Hashes(c)
    ensures var r, read := Delete(s, h, order, again), List(s.files, order).files;
            && (h == "" ==> r == s)
            && (h != "" ==>
                  && (forall f :: f in r.files <==> f in read && f != h)
                  && (forall f :: f in r.files ==> r.files[f] == read[f])
                  && r.index == if h in read then Record(s.index, Load(h, read[h])) else s.index)
  {
    hide List, Record, Load, Hashes;
    if h != "" {
      var found := FindIn(List(s.files, order).out, h);
      if found.Some? {
        FoundIn(List(s.files, order).out, h);
      }
    }
  }

  lemma {:induction false} FoundIn(out: seq<Contact>, h: Hash)
    requires FindIn(out, h).Some?
    ensures exists c :: c in out && h in Hashes(c)
    decreases |out|
  {
    hide Hashes;
    if h in Hashes(out[0]) {
      assert out[0] in out;
    } else {
      FoundIn(out[1..], h);
    }
  }

  /** Saving a contact takes all its hashes, and the hash it was saved under, out of both blocked sets, and no name. */
  lemma ClearIff(idx: Index, saved: Contact, hash: Hash, h: Hash)
    requires "" !in idx.hashes && "" !in idx.identities
    ensures var r := ClearDeleted(idx, saved, hash);
            && (h in r.hashes <==> h in idx.hashes && h !in RawHashes(saved) && h != hash)
            && (h in r.identities <==> h in idx.identities && h !in RawHashes(saved) && h != hash)
            && r.names == idx.names
  {
    NormalizeIsNormal(saved);
    hide Normalize, RawHashes;
  }
}
