/** A directory of unrelated contacts: reading it changes nothing, and a delete takes out one contact for good. */
module ContactSettled {
  import opened Collections
  import opened Contacts
  import opened ContactStore
  import opened Names

  predicate KeysApart(a: Contact, b: Contact) {
    forall k :: k in GroupKeys(a) ==> k !in GroupKeys(b)
  }

  predicate Strangers(a: Contact, b: Contact) {
    !ShouldMerge(a, b) && KeysApart(a, b)
  }

  /** Every file holds a complete record under its primary hash, and no two records may be one peer. */
  ghost predicate Settled(files: Files) {
    && (forall f :: f in files ==> FileSettled(f, files[f]))
    && (forall f, g :: f in files && g in files && f != g ==> Strangers(files[f], files[g]))
  }

  predicate FileSettled(f: string, c: Contact) {
    f != "" && Load(f, c) == c && Primary(c) == f
  }

  /** The records of a settled directory, in the order read. */
  ghost predicate Rows(rows: seq<Contact>) {
    && (forall i :: 0 <= i < |rows| ==> Normalize(rows[i]) == rows[i] && Primary(rows[i]) != "")
    && (forall i, j :: 0 <= i < j < |rows| ==> Strangers(rows[i], rows[j]))
  }

  lemma {:induction false} LoadAllInOrder(files: Files, order: seq<string>)
    requires Settled(files) && forall f :: f in order ==> f in files
    ensures |LoadAll(files, order)| == |order|
    ensures forall i :: 0 <= i < |order| ==> LoadAll(files, order)[i] == files[order[i]]
    decreases |order|
  {
    hide Load, Primary, Strangers;
    if order != [] {
      assert FileSettled(order[0], files[order[0]]);
      LoadAllInOrder(files, order[1..]);
    }
  }

  lemma LoadIsNormal(f: string, c: Contact)
    ensures Normalize(Load(f, c)) == Load(f, c)
  {
    NormalizeIdempotent(c.(hash := Or(c.hash, f), name := Or(c.name, f)));
  }

  lemma LoadedRows(files: Files, order: seq<string>)
    requires Settled(files) && Lists(order, files)
    ensures Rows(LoadAll(files, order))
  {
    hide Load, Normalize, Primary, Strangers;
    LoadAllInOrder(files, order);
    var rows := LoadAll(files, order);
    forall i | 0 <= i < |rows|
      ensures Normalize(rows[i]) == rows[i] && Primary(rows[i]) != ""
    {
      assert FileSettled(order[i], files[order[i]]);
      LoadIsNormal(order[i], files[order[i]]);
    }
  }

  // ----- both passes keep the rows -----

  /** Each row is a group of its own, owning its own keys. */
  ghost predicate OwnGroups(g: Grouping, rows: seq<Contact>) {
    && Values(g.groups) == rows
    && g.orphans == {}
    && (forall k :: k in g.owner ==> OwnedBy(rows, k))
    && (forall k :: k in g.groups.vals ==> k in g.owner)
  }

  predicate OwnedBy(rows: seq<Contact>, k: GroupKey) {
    exists i :: 0 <= i < |rows| && k in GroupKeys(rows[i])
  }

  lemma OwnGroupsStep(g: Grouping, rows: seq<Contact>, c: Contact)
    requires OwnGroups(g, rows) && Normalize(c) == c
    requires forall i :: 0 <= i < |rows| ==> KeysApart(rows[i], c)
    ensures OwnGroups(GroupStep(g, c), rows + [c])
  {
    hide GroupKeys, Normalize, Merge, Hashes;
    var ks := GroupKeys(c);
    NoOwner(ks, g.owner);
    OwnDomain(ks, ks[0], g.owner);
    assert ks[0] in ks;
    ValuesPutNew(g.groups, ks[0], c);
    var r := GroupStep(g, c);
    forall k | k in r.owner
      ensures OwnedBy(rows + [c], k)
    {
      if k in g.owner {
        var i :| 0 <= i < |rows| && k in GroupKeys(rows[i]);
        assert (rows + [c])[i] == rows[i];
      } else {
        assert (rows + [c])[|rows|] == c;
      }
    }
  }

  lemma NoGroups()
    ensures OwnGroups(Group([]), [])
  {
  }

  lemma RowsFront(rows: seq<Contact>)
    requires Rows(rows) && rows != []
    ensures var n := |rows| - 1;
            && Rows(rows[..n]) && Normalize(rows[n]) == rows[n]
            && forall i :: 0 <= i < n ==> KeysApart(rows[..n][i], rows[n])
  {
    hide ShouldMerge, KeysApart, Normalize, Primary;
    var n := |rows| - 1;
    forall i | 0 <= i < n
      ensures KeysApart(rows[..n][i], rows[n])
    {
      assert Strangers(rows[i], rows[n]);
    }
  }

  lemma {:induction false} GroupsAreRows(rows: seq<Contact>)
    requires Rows(rows)
    ensures OwnGroups(Group(rows), rows)
    decreases |rows|
  {
    hide Group, Normalize, OwnGroups, Rows, KeysApart;
    if rows == [] {
      NoGroups();
    } else {
      var n := |rows| - 1;
      RowsFront(rows);
      GroupsAreRows(rows[..n]);
      OwnGroupsStep(Group(rows[..n]), rows[..n], rows[n]);
      assert rows[..n] + [rows[n]] == rows;
      GroupSnoc(rows[..n], rows[n]);
    }
  }

  lemma {:induction false} AbsorbsNone(c: Contact, rows: seq<Contact>)
    requires forall i :: 0 <= i < |rows| ==> !ShouldMerge(c, rows[i])
    ensures Absorb(c, rows) == Sweep(c, rows, {})
    decreases |rows|
  {
    hide ShouldMerge, Merge, Hashes, Absorb;
    if rows == [] {
      AbsorbEmpty(c);
    } else {
      var n := |rows| - 1;
      AbsorbsNone(c, rows[..n]);
      assert rows[..n] + [rows[n]] == rows;
      AbsorbSnoc(c, rows[..n], rows[n]);
    }
  }

  lemma RowsTail(rows: seq<Contact>)
    requires Rows(rows) && rows != []
    ensures Rows(rows[1..]) && Normalize(rows[0]) == rows[0]
    ensures forall i :: 0 <= i < |rows[1..]| ==> !ShouldMerge(rows[0], rows[1..][i])
  {
    hide ShouldMerge, KeysApart, Normalize, Primary;
    forall i | 0 <= i < |rows[1..]|
      ensures !ShouldMerge(rows[0], rows[1..][i])
    {
      assert Strangers(rows[0], rows[i + 1]);
    }
  }

  lemma {:induction false} SweepsNone(rows: seq<Contact>)
    requires Rows(rows)
    ensures SweepAll(rows) == Swept(rows, {})
    decreases |rows|
  {
    hide Rows, ShouldMerge, Normalize, Absorb, SweepAll;
    if rows == [] {
      SweepEmpty();
    } else {
      RowsTail(rows);
      AbsorbsNone(rows[0], rows[1..]);
      SweepsNone(rows[1..]);
      SweepFirst(rows[0], rows[1..]);
      assert [rows[0]] + rows[1..] == rows;
    }
  }

  // ----- nothing is written that was not there -----

  lemma StrangersShareNothing(a: Contact, b: Contact)
    requires Strangers(a, b)
    ensures Hashes(a) !! Hashes(b)
  {
    hide Hashes;
    forall x | x in Hashes(a)
      ensures x !in Hashes(b)
    {
      assert x in Hashes(b) ==> x in Hashes(a) * Hashes(b);
    }
  }

  /** No file is named by another contact's hash. */
  lemma SpareNamesFree(files: Files, f: string, name: string)
    requires Settled(files) && f in files && name in Hashes(files[f]) && name != f
    ensures name !in files
  {
    hide Hashes, Load, Strangers;
    if name in files {
      assert FileSettled(name, files[name]);
      PrimaryIsHash(files[name]);
      StrangersShareNothing(files[f], files[name]);
      assert false;
    }
  }

  lemma WriteBackSame(files: Files, f: string, persist: bool)
    requires Settled(files) && f in files
    ensures WriteBack(files, files[f], persist) == files
  {
    hide Hashes, Load, Primary, Strangers;
    assert FileSettled(f, files[f]);
    LoadIsNormal(f, files[f]);
    forall name | name in Hashes(files[f]) - {f}
      ensures name !in files
    {
      SpareNamesFree(files, f, name);
    }
  }

  ghost predicate FromFiles(files: Files, out: seq<Contact>) {
    forall c :: c in out ==> Stored(files, c)
  }

  ghost predicate Stored(files: Files, c: Contact) {
    exists f :: f in files && files[f] == c
  }

  lemma {:induction false} WriteAllSame(files: Files, out: seq<Contact>, persist: bool)
    requires Settled(files) && FromFiles(files, out)
    ensures WriteAll(files, out, persist) == files
    decreases |out|
  {
    hide Settled, WriteBack;
    if out != [] {
      var n := |out| - 1;
      assert FromFiles(files, out[..n]);
      WriteAllSame(files, out[..n], persist);
      assert out[n] in out && Stored(files, out[n]);
      var f :| f in files && files[f] == out[n];
      WriteBackSame(files, f, persist);
    }
  }

  lemma {:induction false} StrayNamesFree(files: Files, out: seq<Contact>)
    requires Settled(files) && FromFiles(files, out)
    ensures Stray(out) !! files.Keys
    decreases |out|
  {
    hide Settled, Hashes, Primary;
    if out != [] {
      assert out[0] in out && Stored(files, out[0]);
      var f :| f in files && files[f] == out[0];
      assert FileSettled(f, files[f]) by {
        SettledFile(files, f);
      }
      forall name | name in Hashes(out[0]) - {Primary(out[0])}
        ensures name !in files
      {
        assert name != f by {
          SettledFile(files, f);
        }
        SpareNamesFree(files, f, name);
      }
      StrayNamesFree(files, out[1..]);
    }
  }

  lemma SettledFile(files: Files, f: string)
    requires Settled(files) && f in files
    ensures FileSettled(f, files[f]) && Primary(files[f]) == f && Load(f, files[f]) == files[f]
  {
    hide Load, Primary, Strangers;
  }

  /** Reading a settled directory lists its records in directory order and changes no file. */
  lemma SettledReadChangesNothing(files: Files, order: seq<string>)
    requires Settled(files) && Lists(order, files)
    ensures List(files, order).files == files
    ensures |List(files, order).out| == |order|
    ensures forall i :: 0 <= i < |order| ==> List(files, order).out[i] == files[order[i]]
  {
    hide Settled, Rows, Group, SweepAll, LoadAll, List, OwnedBy;
    var rows := LoadAll(files, order);
    LoadAllInOrder(files, order);
    LoadedRows(files, order);
    GroupsAreRows(rows);
    SweepsNone(rows);
    forall c | c in rows
      ensures Stored(files, c)
    {
      var i :| 0 <= i < |rows| && rows[i] == c;
      assert order[i] in files && files[order[i]] == c;
    }
    ReadOfRows(files, order, rows);
  }

  lemma ReadOfRows(files: Files, order: seq<string>, rows: seq<Contact>)
    requires Settled(files) && LoadAll(files, order) == rows && FromFiles(files, rows)
    requires Values(Group(rows).groups) == rows && Group(rows).orphans == {} && SweepAll(rows) == Swept(rows, {})
    ensures List(files, order) == Listing(rows, files)
  {
    hide Settled, Group, SweepAll, WriteAll, Stray, Keepers, LoadAll, FromFiles, Values;
    WriteAllSame(files, rows, true);
    WriteAllSame(files, rows, false);
    StrayNamesFree(files, rows);
  }

  // ----- deleting from a settled directory -----

  lemma OnlyItselfRelated(files: Files, f: string)
    requires Settled(files) && f in files
    ensures RelatedFiles(files, files[f]) == {f}
  {
    hide Load, Hashes, KeysApart, ShouldMerge;
    SettledFile(files, f);
    PrimaryIsHash(files[f]);
    forall g | g in files
      ensures Related(files[f], g, files[g]) <==> g == f
    {
      SettledFile(files, g);
      if g == f {
        SharedHashRelated(files[f], f, files[f], f);
      } else {
        assert Strangers(files[f], files[g]);
      }
    }
  }

  lemma ListedOnce(files: Files, order: seq<string>, h: Hash) returns (f: string)
    requires Settled(files) && Lists(order, files) && FindIn(List(files, order).out, h).Some?
    ensures f in files && FindIn(List(files, order).out, h).value == files[f]
  {
    hide Settled, List, Hashes, Normalize;
    SettledReadChangesNothing(files, order);
    var out := List(files, order).out;
    var i := FoundAt(out, h);
    f := order[i];
    SettledFile(files, f);
    LoadIsNormal(f, files[f]);
  }

  lemma {:induction false} FoundAt(out: seq<Contact>, h: Hash) returns (i: nat)
    requires FindIn(out, h).Some?
    ensures i < |out| && FindIn(out, h) == Some(Normalize(out[i]))
    decreases |out|
  {
    hide Hashes, Normalize;
    if h in Hashes(out[0]) {
      i := 0;
    } else {
      var j := FoundAt(out[1..], h);
      i := j + 1;
    }
  }

  lemma {:induction false} FilterSingle(s: seq<string>, p: string -> bool, f: string)
    requires Distinct(s) && f in s && forall x :: x in s ==> (p(x) <==> x == f)
    ensures Filter(s, p) == [f]
  {
    if s[0] == f {
      FilterNone(s[1..], p);
    } else {
      FilterSingle(s[1..], p, f);
    }
  }

  lemma OneName(files: Files, again: seq<string>, f: string)
    requires Settled(files) && Lists(again, files) && f in files
    ensures RelatedNames(files, again, files[f]) == [f]
  {
    hide Settled, Related;
    OnlyItselfRelated(files, f);
    forall g | g in files
      ensures Related(files[f], g, files[g]) <==> g == f
    {
      assert g in RelatedFiles(files, files[f]) <==> g in {f};
    }
    FilterSingle(again, (g: string) => g in files && Related(files[f], g, files[g]), f);
  }

  lemma RecordedOnce(idx: Index, files: Files, f: string)
    requires f in files && Load(f, files[f]) == files[f]
    ensures RecordAll(idx, files, [f]) == Record(idx, files[f])
  {
    hide Record, Load;
    assert [f][..0] == [];
    assert RecordAll(idx, files, []) == idx;
  }

  /** What recording a contact adds: all its hashes, its identity, and its name unless that is only a hash. */
  lemma RecordAdds(idx: Index, c: Contact)
    requires Normalize(c) == c
    ensures var r := Record(idx, c);
            && r.hashes == idx.hashes + Hashes(c)
            && r.identities == idx.identities + ({c.identity} - {""})
            && r.names == idx.names + (if HashLike(c.name, Hashes(c)) then {} else {Lower(c.name)})
  {
    hide Hashes, Normalize, HashLike;
  }

  /** In a settled directory a delete removes the file of the contact found and no other, and records that contact and
      no other: its hashes, its identity, its name. */
  lemma SettledDelete(s: Store, h: Hash, order: seq<string>, again: seq<string>, c: Contact)
    requires Settled(s.files) && Lists(order, s.files) && Lists(again, s.files) && Found(s, h, order, c)
    ensures var r := Delete(s, h, order, again);
            && r.files == s.files - {Primary(c)}
            && r.index.hashes == s.index.hashes + Hashes(c)
            && r.index.identities == s.index.identities + ({c.identity} - {""})
            && r.index.names == s.index.names + (if HashLike(c.name, Hashes(c)) then {} else {Lower(c.name)})
  {
    hide Settled, List, Hashes, Lists, Load, RecordAll, RelatedNames, Primary, Record, HashLike;
    SettledReadChangesNothing(s.files, order);
    var f := ListedOnce(s.files, order, h);
    OnlyItselfRelated(s.files, f);
    SettledFile(s.files, f);
    LoadIsNormal(f, s.files[f]);
    OneName(s.files, again, f);
    RecordedOnce(s.index, s.files, f);
    RecordAdds(s.index, c);
    assert RelatedFiles(s.files, c) == {f};
  }
}
