/** A directory whose read loses a contact's file, so that a delete leaves one of its hashes unblocked, and a later
    report brings that hash back. */
module ContactOverlap {
  import opened Collections
  import opened Contacts
  import opened ContactStore
  import opened ContactFinality
  import opened ContactSettled
  import opened Names

  // Four files: a serial-only peer, a LAN record that names "c" as its serial hash, the LAN half of the first, and a
  // stranger with an address.
  const A := BLANK.(serial := "a", name := "n1")
  const B := BLANK.(hash := "b", lan := "b", serial := "c", name := "zz")
  const C := BLANK.(hash := "c", lan := "c", name := "n1x")
  const D := BLANK.(hash := "d", lan := "d", ip := "10.0.0.1", name := "q")
  const AC := BLANK.(hash := "c", lan := "c", serial := "a", name := "n1")

  const FILES: Files := map["a" := A, "b" := B, "c" := C, "d" := D]
  const ORDER: seq<string> := ["a", "b", "c", "d"]

  lemma Loaded()
    ensures LoadAll(FILES, ORDER) == [A, B, C, D]
  {
    LoadsEach();
    hide Load;
    assert ORDER[1..] == ["b", "c", "d"] && ["b", "c", "d"][1..] == ["c", "d"] && ["c", "d"][1..] == ["d"] && ["d"][1..] == [];
    assert LoadAll(FILES, []) == [];
    assert LoadAll(FILES, ["d"]) == [D];
    assert LoadAll(FILES, ["c", "d"]) == [C, D];
    assert LoadAll(FILES, ["b", "c", "d"]) == [B, C, D];
  }

  lemma LoadsEach()
    ensures Load("a", A) == A && Load("b", B) == B && Load("c", C) == C && Load("d", D) == D
  {
  }

  lemma NotHashLike(name: string, hashes: set<Hash>)
    requires name != "" && forall h :: h in hashes ==> |h| == 1 && h[0] != name[0]
    requires forall i :: 0 <= i < |name| ==> !('A' <= name[i] <= 'Z')
    ensures !HashLike(name, hashes)
  {
    LowerPlain(name);
    forall h | h in hashes
      ensures !(ShortHash(h) <= Lower(name))
    {
    }
  }

  /** The keys of a record without identity whose name is no hash. */
  lemma KeysOf(c: Contact, lan: Hash)
    requires Normalize(c) == c && c.identity == "" && (c.lan != "" || c.serial != "") && lan == Or(c.lan, c.hash)
    requires !HashLike(c.name, Hashes(c)) && Lower(c.name) == c.name
    ensures GroupKeys(c) == [ByPair(lan, c.serial), ByName(c.name)]
  {
    hide Normalize, HashLike, Hashes;
  }

  lemma Keys()
    ensures GroupKeys(A) == [ByPair("", "a"), ByName("n1")]
    ensures GroupKeys(B) == [ByPair("b", "c"), ByName("zz")]
    ensures GroupKeys(C) == [ByPair("c", ""), ByName("n1x")]
    ensures GroupKeys(D) == [ByPair("d", ""), ByName("q")]
  {
    Normals();
    HashesOfEach();
    hide Normalize, HashLike, Hashes, GroupKeys;
    LowerPlain("n1");
    LowerPlain("zz");
    LowerPlain("n1x");
    LowerPlain("q");
    NotHashLike("n1", {"a"});
    NotHashLike("zz", {"b", "c"});
    NotHashLike("n1x", {"c"});
    KeysOf(A, "");
    KeysOf(B, "b");
    KeysOf(C, "c");
    NotHashLike("q", {"d"});
    KeysOf(D, "d");
  }

  lemma HashesOfEach()
    ensures Hashes(A) == {"a"} && Hashes(B) == {"b", "c"} && Hashes(C) == {"c"} && Hashes(D) == {"d"}
  {
  }

  lemma OwnTwo(x: GroupKey, y: GroupKey, p: GroupKey, owner: map<GroupKey, GroupKey>)
    ensures Own([x, y], p, owner) == owner[x := p][y := p]
    ensures x !in owner && y !in owner ==> FirstOwner([x, y], owner) == None
  {
    assert [x, y][1..] == [y] && [y][1..] == [];
    assert Own([y], p, owner[x := p]) == owner[x := p][y := p];
    assert FirstOwner([y], owner) == if y in owner then Some(owner[y]) else None;
  }

  /** Each row so far is a group of its own, and these are the keys owned. */
  ghost predicate Separate(g: Grouping, rows: seq<Contact>, owner: map<GroupKey, GroupKey>) {
    && Values(g.groups) == rows && g.orphans == {} && g.owner == owner
    && forall k :: k in g.groups.vals ==> k in owner
  }

  /** A row none of whose two keys is owned starts a group. */
  lemma NewGroup(rows: seq<Contact>, c: Contact, x: GroupKey, y: GroupKey, owner: map<GroupKey, GroupKey>)
    requires Separate(Group(rows), rows, owner) && GroupKeys(c) == [x, y] && x !in owner && y !in owner && Normalize(c) == c
    ensures Separate(Group(rows + [c]), rows + [c], owner[x := x][y := x])
  {
    hide GroupKeys, Normalize, Group, Own, FirstOwner, WellFormed;
    var g := Group(rows);
    GroupSnoc(rows, c);
    OwnTwo(x, y, x, owner);
    ValuesPutNew(g.groups, x, c);
  }

  lemma Grouped()
    ensures Values(Group([A, B, C, D]).groups) == [A, B, C, D] && Group([A, B, C, D]).orphans == {}
  {
    Keys();
    Normals();
    hide GroupKeys, Normalize, Group;
    var o1 := map[ByPair("", "a") := ByPair("", "a"), ByName("n1") := ByPair("", "a")];
    var o2 := o1[ByPair("b", "c") := ByPair("b", "c")][ByName("zz") := ByPair("b", "c")];
    var o3 := o2[ByPair("c", "") := ByPair("c", "")][ByName("n1x") := ByPair("c", "")];
    NoGroups();
    NewGroup([], A, ByPair("", "a"), ByName("n1"), map[]);
    assert [] + [A] == [A];
    NewGroup([A], B, ByPair("b", "c"), ByName("zz"), o1);
    assert [A] + [B] == [A, B];
    NewGroup([A, B], C, ByPair("c", ""), ByName("n1x"), o2);
    assert [A, B] + [C] == [A, B, C];
    NewGroup([A, B, C], D, ByPair("d", ""), ByName("q"), o3);
    assert [A, B, C] + [D] == [A, B, C, D];
  }

  lemma NoGroups()
    ensures Separate(Group([]), [], map[])
  {
  }

  lemma Normals()
    ensures Normalize(A) == A && Normalize(B) == B && Normalize(C) == C && Normalize(D) == D && Normalize(AC) == AC
  {
  }

  lemma MergesAC()
    ensures Merge(A, C) == AC && ShouldMerge(A, C) && !ShouldMerge(A, B)
  {
    HashesOfEach();
    Normals();
    hide Hashes;
    LowerPlain("n1");
    LowerPlain("n1x");
  }

  lemma StrangerD()
    ensures !ShouldMerge(AC, D) && !ShouldMerge(B, D)
  {
    HashesOfEach();
    HashesOfAC();
    Normals();
    hide Hashes;
  }

  lemma Swept()
    ensures SweepAll([A, B, C, D]).out == [AC, B, D]
  {
    Normals();
    MergesAC();
    StrangerD();
    hide ShouldMerge, Merge, Normalize, Hashes, SweepAll, Absorb;
    AbsorbEmpty(A);
    AbsorbSnoc(A, [], B);
    AbsorbSnoc(A, [B], C);
    AbsorbSnoc(A, [B, C], D);
    assert [] + [B] == [B] && [B] + [C] == [B, C] && [B, C] + [D] == [B, C, D] && [B] + [D] == [B, D];
    SweepFirst(A, [B, C, D]);
    assert [A] + [B, C, D] == [A, B, C, D] && [AC] + [B, D] == [AC, B, D];
    SweptPair();
  }

  lemma SweptPair()
    ensures SweepAll([B, D]).out == [B, D]
  {
    Normals();
    StrangerD();
    hide ShouldMerge, Merge, Normalize, Hashes, SweepAll, Absorb;
    AbsorbEmpty(B);
    AbsorbEmpty(D);
    AbsorbSnoc(B, [], D);
    assert [] + [D] == [D];
    SweepFirst(B, [D]);
    SweepFirst(D, []);
    SweepEmpty();
    assert [B] + [D] == [B, D] && [D] + [] == [D];
  }

  lemma Written(files: Files, persist: bool)
    requires files == FILES && persist
    ensures WriteAll(files, [AC, B, D], persist) == map["b" := B, "d" := D]
  {
    Normals();
    PrimariesOf();
    HashesOfAC();
    HashesOfEach();
    hide Primary, Hashes, Normalize;
    assert [AC, B, D][..2] == [AC, B] && [AC, B][..1] == [AC] && [AC][..0] == [];
    assert WriteAll(files, [], persist) == files;
    assert WriteAll(files, [AC], persist) == WriteBack(files, AC, persist) == map["b" := B, "c" := AC, "d" := D];
    assert WriteAll(files, [AC, B], persist) == WriteBack(WriteAll(files, [AC], persist), B, persist) == map["b" := B, "d" := D];
  }

  lemma PrimariesOf()
    ensures Primary(AC) == "c" && Primary(B) == "b" && Primary(D) == "d"
  {
  }

  lemma KeepersOf()
    ensures Keepers([AC, B, D]) == {"b", "c", "d"}
  {
    PrimariesOf();
    hide Primary;
    assert [AC, B, D][1..] == [B, D] && [B, D][1..] == [D] && [D][1..] == [];
    assert Keepers([D]) == {"d"} + Keepers([]);
    assert Keepers([B, D]) == {"b"} + Keepers([D]);
  }

  lemma FoundByA()
    ensures FindIn([AC, B, D], "a") == Some(AC)
  {
    Normals();
    HashesOfAC();
  }

  lemma ListSteps(files: Files, order: seq<string>, raw: seq<Contact>, rows: seq<Contact>, out: seq<Contact>)
    returns (orphans: set<Hash>)
    requires LoadAll(files, order) == raw && Values(Group(raw).groups) == rows && SweepAll(rows).out == out
    requires |raw| > |out|
    ensures List(files, order) == Listing(out, WriteAll(files, out, true) - (orphans - Keepers(out)))
  {
    hide LoadAll, Group, SweepAll, WriteAll, Keepers, Stray;
    orphans := Group(raw).orphans + SweepAll(rows).orphans + Stray(out);
  }

  lemma ReadOutcome(files: Files, order: seq<string>, raw: seq<Contact>, out: seq<Contact>, ac: Contact, kept: Files)
    requires LoadAll(files, order) == raw && Values(Group(raw).groups) == raw && SweepAll(raw).out == out
    requires |raw| > |out| && WriteAll(files, out, true) == kept
    requires kept.Keys <= Keepers(out) && FindIn(out, "a") == Some(ac)
    ensures FindIn(List(files, order).out, "a") == Some(ac) && List(files, order).files == kept
  {
    hide List, LoadAll, Group, SweepAll, WriteAll, Keepers, FindIn;
    var orphans := ListSteps(files, order, raw, raw, out);
    assert forall f :: f in kept ==> f in kept.Keys && f !in orphans - Keepers(out);
  }

  const KEPT: Files := map["b" := B, "d" := D]

  /** Reading the files lists the first peer with hash "a", but leaves "a" in no file. */
  lemma ReadLosesHash()
    ensures FindIn(List(FILES, ORDER).out, "a") == Some(AC)
    ensures List(FILES, ORDER).files == KEPT
  {
    hide List, LoadAll, Group, SweepAll, WriteAll, Keepers, FindIn;
    Loaded();
    Grouped();
    Swept();
    Written(FILES, true);
    KeepersOf();
    FoundByA();
    ReadOutcome(FILES, ORDER, [A, B, C, D], [AC, B, D], AC, KEPT);
  }

  const START := Store(FILES, Index({}, {}, {}))

  function Deleted(): Store {
    Delete(START, "a", ORDER, ["b", "d"])
  }

  /** So the delete finds the peer by "a" and yet leaves "a" unblocked, with the stranger's file in place. */
  lemma DeleteLeavesHashUnblocked()
    ensures Found(START, "a", ORDER, AC) && "a" in Hashes(AC)
    ensures "a" !in Deleted().index.hashes && Deleted().files == map["d" := D]
  {
    ReadLosesHash();
    HashesOfAC();
    HeldAfterRead();
    RelatedToAC();
    ListsKept();
    hide List, Hashes, Load, Delete, Related, Lists, Record;
    assert Found(START, "a", ORDER, AC);
    ContactBlockedIff(START, "a", ORDER, ["b", "d"], AC, "a");
    DeletedFiles();
  }

  lemma ListsKept()
    ensures Lists(["b", "d"], KEPT) && Lists(["d"], map["d" := D])
  {
  }

  lemma DeletedFiles()
    requires Found(START, "a", ORDER, AC) && List(FILES, ORDER).files == KEPT && RelatedFiles(KEPT, AC) == {"b"}
    ensures Deleted().files == map["d" := D]
  {
    hide List, Hashes, Load, Related, RecordAll, RelatedNames;
    assert Deleted().files == KEPT - {"b"};
  }

  lemma RelatedToAC()
    ensures RelatedFiles(KEPT, AC) == {"b"}
  {
    LoadsEach();
    StrangerD();
    HashesOfEach();
    HashesOfAC();
    hide Load, Hashes, ShouldMerge;
    SharedHashRelated(AC, "b", B, "c");
    assert !Related(AC, "d", D);
  }

  lemma HeldAfterRead()
    ensures "a" !in DirHashes(KEPT)
  {
    LoadsEach();
    HashesOfEach();
    hide Load, Hashes;
  }

  lemma HashesOfAC()
    ensures Hashes(AC) == {"a", "c"}
  {
    Normals();
  }

  // A report of the deleted hash from the stranger's address, with the plainest alias test.
  const SEEN := Report("a", false, "10.0.0.1", None, "", "")

  function Plainly(): (Hash, Hash) -> bool {
    (x: Hash, y: Hash) => x != "" && x == y
  }

  lemma StrangerSettled()
    ensures ContactSettled.Settled(map["d" := D])
  {
    LoadsEach();
    PrimariesOf();
    hide Load, Primary, Strangers;
  }

  lemma ReportMatchesStranger()
    ensures MatchesReport(D, SEEN, Plainly())
  {
    Normals();
    hide Normalize, Hashes, NamesRelated;
  }

  lemma ReportReturns(s: Store)
    requires s.files == map["d" := D] && "a" !in s.index.hashes && "a" !in DirHashes(s.files)
    ensures "a" in DirHashes(Sync(s, SEEN, Plainly(), "", ["d"]).files) && !IdleFor(s, "a", Plainly())
  {
    StrangerSettled();
    ListsKept();
    ReportMatchesStranger();
    BareReport(s.index, "a");
    hide List, MatchesReport, Sync, IsDeleted, DirHashes, Lists, Settled, IdleFor;
    SettledReadChangesNothing(s.files, ["d"]);
    var out := List(s.files, ["d"]).out;
    assert out == [D];
    assert FirstMatch(out, SEEN, Plainly()) == Some(D);
    UnblockedReportChanges(s, SEEN, Plainly(), "", ["d"]);
    NotIdleFor(s, SEEN, Plainly(), "", ["d"]);
  }

  /** After that delete one report brings the deleted hash back to disk: the delete is not final. */
  lemma DeletedHashReturns()
    ensures "a" in Hashes(AC) && Found(START, "a", ORDER, AC)
    ensures "a" in DirHashes(Sync(Deleted(), SEEN, Plainly(), "", ["d"]).files)
    ensures !FinalFor(Deleted(), Hashes(AC), Plainly())
  {
    DeleteLeavesHashUnblocked();
    DeletedNowhere(START, "a", ORDER, ["b", "d"], AC, "a");
    hide Hashes, Delete, Found, Sync, DirHashes, IdleFor, FinalFor;
    ReportReturns(Deleted());
    if FinalFor(Deleted(), Hashes(AC), Plainly()) {
      FinalForIdle(Deleted(), Hashes(AC), Plainly(), "a");
      assert false;
    }
  }
}
