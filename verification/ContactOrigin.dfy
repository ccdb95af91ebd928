/** Which stored records went into each contact that a read lists, and where its address comes from. */
module ContactOrigin {
  import opened Collections
  import opened Contacts
  import opened ContactStore

  /** A record with the names of the files merged into it, in merge order. */
  datatype Tagged = Tagged(c: Contact, from: seq<string>)

  function Bare(ts: seq<Tagged>): (r: seq<Contact>)
    ensures |r| == |ts| && forall i :: 0 <= i < |r| ==> r[i] == ts[i].c
  {
    seq(|ts|, i requires 0 <= i < |ts| => ts[i].c)
  }

  function Joined(a: Tagged, b: Tagged): Tagged {
    Tagged(Merge(a.c, b.c), a.from + b.from)
  }

  function Normalized(t: Tagged): Tagged {
    t.(c := Normalize(t.c))
  }

  // ----- the read, with names -----

  function LoadTagged(files: Files, order: seq<string>): seq<Tagged> {
    if order == [] then []
    else (if order[0] in files then [Tagged(Load(order[0], files[order[0]]), [order[0]])] else []) + LoadTagged(files, order[1..])
  }

  datatype TagGroups = TagGroups(groups: Dict<GroupKey, Tagged>, owner: map<GroupKey, GroupKey>)

  function TagGroupStep(g: TagGroups, t: Tagged): TagGroups {
    var ks := GroupKeys(t.c);
    var p := FirstOwner(ks, g.owner);
    if p.None? || p.value !in g.groups.vals then
      TagGroups(Put(g.groups, ks[0], Normalized(t)), Own(ks, ks[0], g.owner))
    else TagGroups(Put(g.groups, p.value, Joined(g.groups.vals[p.value], t)), Own(ks, p.value, g.owner))
  }

  function TagGroup(rows: seq<Tagged>): TagGroups {
    if rows == [] then TagGroups(Empty(), map[]) else TagGroupStep(TagGroup(rows[..|rows| - 1]), rows[|rows| - 1])
  }

  datatype TagSweep = TagSweep(current: Tagged, rest: seq<Tagged>)

  function TagSweepStep(s: TagSweep, t: Tagged): TagSweep {
    if ShouldMerge(s.current.c, t.c) then s.(current := Joined(s.current, t)) else s.(rest := s.rest + [t])
  }

  function TagAbsorb(current: Tagged, rows: seq<Tagged>): (s: TagSweep)
    ensures |s.rest| <= |rows|
  {
    if rows == [] then TagSweep(current, [])
    else TagSweepStep(TagAbsorb(current, rows[..|rows| - 1]), rows[|rows| - 1])
  }

  function TagSweepAll(rows: seq<Tagged>): seq<Tagged>
    decreases |rows|
  {
    if rows == [] then []
    else
      var s := TagAbsorb(Normalized(rows[0]), rows[1..]);
      [s.current] + TagSweepAll(s.rest)
  }

  /** The contacts list_contacts returns, each with the files merged into it. */
  function Origins(files: Files, order: seq<string>): seq<Tagged> {
    TagSweepAll(Values(TagGroup(LoadTagged(files, order)).groups))
  }

  // ----- without the names it is the read itself -----

  lemma {:induction false} LoadErases(files: Files, order: seq<string>)
    ensures Bare(LoadTagged(files, order)) == LoadAll(files, order)
  {
    hide Load;
    if order != [] {
      LoadErases(files, order[1..]);
    }
  }

  ghost predicate Mirrors(t: TagGroups, g: Grouping) {
    && t.owner == g.owner && t.groups.keys == g.groups.keys
    && (forall k :: k in t.groups.vals <==> k in g.groups.vals)
    && (forall k :: k in t.groups.vals ==> t.groups.vals[k].c == g.groups.vals[k])
  }

  lemma StepMirrors(t: TagGroups, g: Grouping, x: Tagged)
    requires Mirrors(t, g)
    ensures Mirrors(TagGroupStep(t, x), GroupStep(g, x.c))
  {
    hide GroupKeys, Merge, Normalize, Hashes, Primary, Own, FirstOwner, WellFormed;
  }

  lemma NoneMirrors()
    ensures Mirrors(TagGroup([]), Group([]))
  {
  }

  lemma {:induction false} GroupErases(rows: seq<Tagged>)
    ensures Mirrors(TagGroup(rows), Group(Bare(rows)))
    decreases |rows|
  {
    hide Mirrors, TagGroupStep, Group, GroupStep;
    if rows == [] {
      NoneMirrors();
    } else {
      var n := |rows| - 1;
      GroupErases(rows[..n]);
      StepMirrors(TagGroup(rows[..n]), Group(Bare(rows[..n])), rows[n]);
      GroupSnoc(Bare(rows[..n]), rows[n].c);
      assert Bare(rows[..n]) + [rows[n].c] == Bare(rows);
    }
  }

  lemma ValuesErase(t: TagGroups, g: Grouping)
    requires Mirrors(t, g)
    ensures Bare(Values(t.groups)) == Values(g.groups)
  {
  }

  lemma {:induction false} AbsorbErases(current: Tagged, rows: seq<Tagged>)
    ensures var t, s := TagAbsorb(current, rows), Absorb(current.c, Bare(rows));
            t.current.c == s.current && Bare(t.rest) == s.rest
    decreases |rows|
  {
    hide ShouldMerge, Merge, Hashes, Absorb, Primary;
    if rows == [] {
      AbsorbEmpty(current.c);
    } else {
      var n := |rows| - 1;
      AbsorbErases(current, rows[..n]);
      AbsorbSnoc(current.c, Bare(rows[..n]), rows[n].c);
      assert Bare(rows[..n]) + [rows[n].c] == Bare(rows);
    }
  }

  lemma {:induction false} SweepErases(rows: seq<Tagged>)
    ensures Bare(TagSweepAll(rows)) == SweepAll(Bare(rows)).out
    decreases |rows|
  {
    hide Absorb, TagAbsorb, Normalize;
    if rows != [] {
      var s := TagAbsorb(Normalized(rows[0]), rows[1..]);
      AbsorbErases(Normalized(rows[0]), rows[1..]);
      assert Bare(rows)[1..] == Bare(rows[1..]);
      SweepErases(s.rest);
    }
  }

  lemma OriginsErase(files: Files, order: seq<string>)
    ensures Bare(Origins(files, order)) == List(files, order).out
  {
    hide LoadTagged, LoadAll, TagGroup, Group, TagSweepAll, SweepAll, Mirrors, WriteAll, Stray, Keepers;
    var rows := LoadTagged(files, order);
    LoadErases(files, order);
    GroupErases(rows);
    ValuesErase(TagGroup(rows), Group(Bare(rows)));
    SweepErases(Values(TagGroup(rows).groups));
  }

  // ----- where an address comes from -----

  function IpOf(files: Files, f: string): string {
    if f in files then files[f].ip else ""
  }

  /** The first address among the files, in merge order. */
  function FirstIp(files: Files, names: seq<string>): string {
    if names == [] then "" else Or(IpOf(files, names[0]), FirstIp(files, names[1..]))
  }

  lemma {:induction false} FirstIpAppend(files: Files, a: seq<string>, b: seq<string>)
    ensures FirstIp(files, a + b) == Or(FirstIp(files, a), FirstIp(files, b))
  {
    if a == [] {
      assert a + b == b;
    } else {
      assert (a + b)[0] == a[0] && (a + b)[1..] == a[1..] + b;
      FirstIpAppend(files, a[1..], b);
    }
  }

  lemma {:induction false} FirstIpStored(files: Files, names: seq<string>)
    ensures FirstIp(files, names) == "" || exists f :: f in names && f in files && files[f].ip == FirstIp(files, names)
  {
    if names != [] {
      FirstIpStored(files, names[1..]);
      assert names[0] in names;
    }
  }

  /** A listed contact's address is the first one among the files merged into it. */
  predicate Traced(files: Files, t: Tagged) {
    t.from != [] && (forall f :: f in t.from ==> f in files) && t.c.ip == FirstIp(files, t.from)
  }

  lemma JoinedTraced(files: Files, a: Tagged, b: Tagged)
    requires Traced(files, a) && Traced(files, b)
    ensures Traced(files, Joined(a, b)) && Traced(files, Normalized(a))
  {
    hide Merge, Normalize;
    MergeIp(a.c, b.c);
    NormalizeIp(a.c);
    FirstIpAppend(files, a.from, b.from);
  }

  lemma LoadTraced(files: Files, f: string)
    requires f in files
    ensures Traced(files, Tagged(Load(f, files[f]), [f]))
  {
    assert [f][1..] == [] && FirstIp(files, []) == "";
    hide Normalize;
    NormalizeIp(files[f].(hash := Or(files[f].hash, f), name := Or(files[f].name, f)));
  }

  lemma {:induction false} LoadsTraced(files: Files, order: seq<string>)
    ensures forall t :: t in LoadTagged(files, order) ==> Traced(files, t)
  {
    hide Load, Traced;
    if order != [] {
      LoadsTraced(files, order[1..]);
      if order[0] in files {
        LoadTraced(files, order[0]);
      }
    }
  }

  lemma {:induction false} GroupTraced(files: Files, rows: seq<Tagged>)
    requires forall t :: t in rows ==> Traced(files, t)
    ensures forall k :: k in TagGroup(rows).groups.vals ==> Traced(files, TagGroup(rows).groups.vals[k])
    decreases |rows|
  {
    hide Traced, GroupKeys, Joined, Normalized, Own;
    if rows != [] {
      var n := |rows| - 1;
      GroupTraced(files, rows[..n]);
      var g := TagGroup(rows[..n]);
      var p := FirstOwner(GroupKeys(rows[n].c), g.owner);
      JoinedTraced(files, rows[n], rows[n]);
      if p.Some? && p.value in g.groups.vals {
        JoinedTraced(files, g.groups.vals[p.value], rows[n]);
      }
    }
  }

  lemma {:induction false} AbsorbTraced(files: Files, current: Tagged, rows: seq<Tagged>)
    requires Traced(files, current) && forall t :: t in rows ==> Traced(files, t)
    ensures var s := TagAbsorb(current, rows); Traced(files, s.current) && forall t :: t in s.rest ==> Traced(files, t)
    decreases |rows|
  {
    hide Traced, ShouldMerge, Joined;
    if rows != [] {
      var n := |rows| - 1;
      AbsorbTraced(files, current, rows[..n]);
      JoinedTraced(files, TagAbsorb(current, rows[..n]).current, rows[n]);
    }
  }

  lemma {:induction false} SweepTraced(files: Files, rows: seq<Tagged>)
    requires forall t :: t in rows ==> Traced(files, t)
    ensures forall t :: t in TagSweepAll(rows) ==> Traced(files, t)
    decreases |rows|
  {
    hide Traced, TagAbsorb, Normalized;
    if rows != [] {
      JoinedTraced(files, rows[0], rows[0]);
      AbsorbTraced(files, Normalized(rows[0]), rows[1..]);
      SweepTraced(files, TagAbsorb(Normalized(rows[0]), rows[1..]).rest);
    }
  }

  lemma OriginsTraced(files: Files, order: seq<string>)
    ensures forall t :: t in Origins(files, order) ==> Traced(files, t)
  {
    hide Traced, LoadTagged, TagGroup, TagSweepAll;
    LoadsTraced(files, order);
    var rows := LoadTagged(files, order);
    GroupTraced(files, rows);
    var groups := Values(TagGroup(rows).groups);
    forall t | t in groups
      ensures Traced(files, t)
    {
      ValuesIn(TagGroup(rows).groups, t);
    }
    SweepTraced(files, groups);
  }

  /** The address of every contact read is the first one among the records merged into it. */
  lemma ListedAddress(files: Files, order: seq<string>, i: nat)
    requires i < |List(files, order).out|
    ensures |Origins(files, order)| == |List(files, order).out|
    ensures Origins(files, order)[i].c == List(files, order).out[i]
    ensures List(files, order).out[i].ip == FirstIp(files, Origins(files, order)[i].from)
  {
    hide List, Origins, Traced;
    OriginsErase(files, order);
    OriginsTraced(files, order);
    TracedIp(files, Origins(files, order)[i]);
  }

  lemma TracedIp(files: Files, t: Tagged)
    requires Traced(files, t)
    ensures t.c.ip == FirstIp(files, t.from)
  {
  }

  // ----- every file goes somewhere -----

  ghost predicate Covers(ts: seq<Tagged>, f: string) {
    exists t :: t in ts && f in t.from
  }

  lemma {:induction false} LoadCovers(files: Files, order: seq<string>, f: string)
    requires f in order && f in files
    ensures Covers(LoadTagged(files, order), f)
  {
    hide Load;
    var rows := LoadTagged(files, order);
    if order[0] == f {
      assert rows[0] in rows && f in rows[0].from;
    } else {
      LoadCovers(files, order[1..], f);
      var t :| t in LoadTagged(files, order[1..]) && f in t.from;
      assert t in rows;
    }
  }

  /** Every group's key is owned, and every owner is a group. */
  ghost predicate Owned(g: TagGroups) {
    && (forall k :: k in g.groups.vals ==> k in g.owner)
    && (forall k :: k in g.owner ==> g.owner[k] in g.groups.vals)
  }

  /** The group a row ends up in. */
  function GroupAt(g: TagGroups, t: Tagged): GroupKey {
    var p := FirstOwner(GroupKeys(t.c), g.owner);
    if p.None? || p.value !in g.groups.vals then GroupKeys(t.c)[0] else p.value
  }

  lemma StepShape(g: TagGroups, t: Tagged)
    requires Owned(g)
    ensures var at := GroupAt(g, t);
            (TagGroupStep(g, t)
             == TagGroups(Put(g.groups, at, if at in g.groups.vals then Joined(g.groups.vals[at], t) else Normalized(t)),
                          Own(GroupKeys(t.c), at, g.owner)))
  {
    hide GroupKeys, Joined, Normalized, Own, FirstOwner, Put;
    var ks := GroupKeys(t.c);
    OwnerFound(ks, g.owner);
    assert ks[0] in ks;
  }

  lemma StepOwned(g: TagGroups, t: Tagged)
    requires Owned(g)
    ensures Owned(TagGroupStep(g, t))
  {
    hide GroupKeys, Joined, Normalized, Own, TagGroupStep, WellFormed;
    StepShape(g, t);
    OwnDomain(GroupKeys(t.c), GroupAt(g, t), g.owner);
    GroupAtOwned(g, t);
  }

  lemma GroupAtOwned(g: TagGroups, t: Tagged)
    requires Owned(g)
    ensures GroupAt(g, t) in g.owner || GroupAt(g, t) in GroupKeys(t.c)
  {
    hide GroupKeys, FirstOwner;
    OwnerFound(GroupKeys(t.c), g.owner);
    assert GroupKeys(t.c)[0] in GroupKeys(t.c);
  }

  lemma StepHolds(g: TagGroups, t: Tagged, f: string)
    requires Owned(g) && (GroupHolds(g, f) || f in t.from)
    ensures GroupHolds(TagGroupStep(g, t), f)
  {
    hide GroupKeys, Merge, Normalize, Own, TagGroupStep, WellFormed, Owned, GroupAt;
    StepShape(g, t);
    var r := TagGroupStep(g, t);
    var at := GroupAt(g, t);
    if f in t.from {
      assert f in r.groups.vals[at].from;
    } else {
      var k :| k in g.groups.vals && f in g.groups.vals[k].from;
      assert k in r.groups.vals && f in r.groups.vals[k].from;
    }
  }

  lemma {:induction false} GroupCovers(rows: seq<Tagged>, f: string)
    ensures Owned(TagGroup(rows))
    ensures Covers(rows, f) ==> GroupHolds(TagGroup(rows), f)
    decreases |rows|
  {
    hide TagGroupStep, Owned, GroupHolds;
    if rows == [] {
      NoneOwned();
    } else {
      var n := |rows| - 1;
      GroupCovers(rows[..n], f);
      StepOwned(TagGroup(rows[..n]), rows[n]);
      if Covers(rows, f) {
        if f !in rows[n].from {
          var t :| t in rows && f in t.from;
          assert t in rows[..n];
        }
        StepHolds(TagGroup(rows[..n]), rows[n], f);
      }
    }
  }

  lemma NoneOwned()
    ensures Owned(TagGroup([]))
  {
  }

  ghost predicate GroupHolds(g: TagGroups, f: string) {
    exists k :: k in g.groups.vals && f in g.groups.vals[k].from
  }

  lemma {:induction false} AbsorbCovers(current: Tagged, rows: seq<Tagged>, f: string)
    requires f in current.from || Covers(rows, f)
    ensures var s := TagAbsorb(current, rows); f in s.current.from || Covers(s.rest, f)
    decreases |rows|
  {
    hide ShouldMerge, Merge;
    if rows != [] {
      var n := |rows| - 1;
      if f !in current.from && f !in rows[n].from {
        var t :| t in rows && f in t.from;
        assert t in rows[..n];
      }
      var s, r := TagAbsorb(current, rows[..n]), TagAbsorb(current, rows);
      if f in current.from || Covers(rows[..n], f) {
        AbsorbCovers(current, rows[..n], f);
        if Covers(s.rest, f) {
          var t :| t in s.rest && f in t.from;
          assert t in r.rest;
        }
      } else if !ShouldMerge(s.current.c, rows[n].c) {
        assert rows[n] in r.rest;
      }
    }
  }

  lemma {:induction false} SweepCovers(rows: seq<Tagged>, f: string)
    requires Covers(rows, f)
    ensures Covers(TagSweepAll(rows), f)
    decreases |rows|
  {
    hide TagAbsorb, Normalize;
    var s := TagAbsorb(Normalized(rows[0]), rows[1..]);
    var r := TagSweepAll(rows);
    if f !in rows[0].from {
      var t :| t in rows && f in t.from;
      assert t in rows[1..];
    }
    AbsorbCovers(Normalized(rows[0]), rows[1..], f);
    if f in s.current.from {
      assert r[0] in r;
    } else {
      SweepCovers(s.rest, f);
      var t :| t in TagSweepAll(s.rest) && f in t.from;
      assert t in r;
    }
  }

  /** Every file of the directory is merged into some contact read. */
  lemma EveryFileListed(files: Files, order: seq<string>, f: string)
    requires f in order && f in files
    ensures Covers(Origins(files, order), f)
  {
    hide LoadTagged, TagGroup, TagSweepAll;
    var rows := LoadTagged(files, order);
    LoadCovers(files, order, f);
    GroupCovers(rows, f);
    var g := TagGroup(rows);
    var k :| k in g.groups.vals && f in g.groups.vals[k].from;
    ValuesIn(g.groups, g.groups.vals[k]);
    assert Covers(Values(g.groups), f);
    SweepCovers(Values(g.groups), f);
  }
}
