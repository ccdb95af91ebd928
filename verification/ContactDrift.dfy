/** A stored address that one refresh moves out of the scope: the read merges its record behind an outside one. */
module ContactDrift {
  import opened Collections
  import opened LanScope
  import opened Contacts
  import opened ContactStore
  import opened Names

  // The serial half of a peer, met once at an outside address, and its LAN half, inside the scope.
  const A := BLANK.(serial := "a", ip := "2.2.2.2", name := "n")
  const B := BLANK.(hash := "b", lan := "b", ip := "1.1.1.1", name := "n")
  const AB := BLANK.(hash := "b", lan := "b", serial := "a", ip := "2.2.2.2", name := "n")

  const FILES: Files := map["a" := A, "b" := B]
  const ORDER: seq<string> := ["a", "b"]
  const SCOPE := "1.1.1.9"
  const S := Store(FILES, Index({}, {}, {}))

  // A report about somebody else.
  const STRANGER := Report("z", false, "", None, "", "")

  function Plainly(): (Hash, Hash) -> bool {
    (x: Hash, y: Hash) => x != "" && x == y
  }

  lemma SplitDot(rest: string)
    ensures Split(['.'] + rest, '.') == [""] + Split(rest, '.')
  {
    assert (['.'] + rest)[1..] == rest;
  }

  lemma SplitChar(c: char, rest: string)
    requires c != '.'
    ensures Split([c] + rest, '.') == [[c] + Split(rest, '.')[0]] + Split(rest, '.')[1..]
  {
    assert ([c] + rest)[1..] == rest;
  }

  /** A digit and a dot before the rest give one more part. */
  lemma SplitPart(c: char, rest: string)
    requires c != '.'
    ensures Split([c, '.'] + rest, '.') == [[c]] + Split(rest, '.')
  {
    hide Split;
    SplitDot(rest);
    SplitChar(c, ['.'] + rest);
    assert [c, '.'] + rest == [c] + (['.'] + rest);
    assert [c] + "" == [c] && ([""] + Split(rest, '.'))[1..] == Split(rest, '.');
  }

  lemma SplitFour(a: char, b: char, c: char, d: char)
    requires a != '.' && b != '.' && c != '.' && d != '.'
    ensures Split([a, '.', b, '.', c, '.', d], '.') == [[a], [b], [c], [d]]
  {
    SplitEnd(d);
    hide Split;
    SplitPart(c, [d]);
    SplitPart(b, [c, '.', d]);
    SplitPart(a, [b, '.', c, '.', d]);
    assert [c, '.'] + [d] == [c, '.', d];
    assert [b, '.'] + [c, '.', d] == [b, '.', c, '.', d];
    assert [a, '.'] + [b, '.', c, '.', d] == [a, '.', b, '.', c, '.', d];
  }

  lemma SplitEnd(d: char)
    requires d != '.'
    ensures Split([d], '.') == [[d]]
  {
    SplitChar(d, []);
    assert [d] + [] == [d] && [d] + "" == [d];
  }

  lemma Digit(c: char)
    requires '0' <= c <= '9'
    ensures ParseInt([c]) == Some((c - '0') as int)
  {
    assert [c][..0] == [] && DigitsValue([]) == 0;
  }

  lemma Scopes()
    ensures SameLanScope("1.1.1.1", SCOPE) && !SameLanScope("2.2.2.2", SCOPE)
  {
    SplitFour('1', '1', '1', '1');
    SplitFour('1', '1', '1', '9');
    SplitFour('2', '2', '2', '2');
    Digit('1');
    Digit('2');
    hide Split, ParseInt;
    assert "1.1.1.1" == ['1', '.', '1', '.', '1', '.', '1'] && SCOPE == ['1', '.', '1', '.', '1', '.', '9'];
    assert "2.2.2.2" == ['2', '.', '2', '.', '2', '.', '2'];
    assert [['1'], ['1'], ['1'], ['1']][..3] == [['1'], ['1'], ['1'], ['9']][..3];
    assert [['2'], ['2'], ['2'], ['2']][..3][0] != [['1'], ['1'], ['1'], ['9']][..3][0];
  }

  lemma Loaded()
    ensures LoadAll(FILES, ORDER) == [A, B]
  {
    assert Load("a", A) == A && Load("b", B) == B;
    hide Load;
    assert ORDER[1..] == ["b"] && ["b"][1..] == [] && LoadAll(FILES, []) == [];
    assert LoadAll(FILES, ["b"]) == [B];
  }

  lemma Records()
    ensures Normalize(A) == A && Normalize(B) == B && Normalize(AB) == AB && Merge(A, B) == AB
    ensures Hashes(A) == {"a"} && Hashes(B) == {"b"} && Hashes(AB) == {"a", "b"} && Primary(AB) == "b"
  {
  }

  lemma KeysOf(c: Contact, lan: Hash, serial: Hash, h: Hash)
    requires Normalize(c) == c && Hashes(c) == {h} && (h == "a" || h == "b") && c.name == "n" && c.identity == ""
    requires Or(c.lan, c.hash) == lan && c.serial == serial && (lan != "" || serial != "")
    ensures GroupKeys(c) == [ByPair(lan, serial), ByName("n")]
  {
    hide Normalize, Hashes;
    LowerPlain("n");
    assert ShortHash(h) == h && h[0] != "n"[0];
  }

  lemma Grouped()
    ensures Values(Group([A, B]).groups) == [AB]
  {
    Records();
    KeysOf(A, "", "a", "a");
    KeysOf(B, "b", "", "b");
    hide GroupKeys, Merge, Normalize, Hashes, Primary, Group;
    var x, y, z := ByPair("", "a"), ByName("n"), ByPair("b", "");
    GroupSnoc([], A);
    GroupSnoc([A], B);
    assert [] + [A] == [A] && [A] + [B] == [A, B];
    GroupEmpty();
    OwnTwo(x, y, x);
    OwnerByName(x, y, z);
    assert Group([A]).groups == Put(Empty(), x, A);
    assert Group([A]).owner == map[x := x, y := x];
    assert Group([A, B]).groups == Put(Put(Empty(), x, A), x, AB);
  }

  lemma GroupEmpty()
    ensures Group([]) == Grouping(Empty(), map[], {})
  {
  }

  lemma OwnTwo(x: GroupKey, y: GroupKey, p: GroupKey)
    ensures Own([x, y], p, map[]) == map[x := p, y := p] && FirstOwner([x, y], map[]) == None
  {
    assert [x, y][1..] == [y] && [y][1..] == [];
    assert Own([y], p, map[x := p]) == map[x := p][y := p];
    assert FirstOwner([y], map[]) == None;
  }

  lemma OwnerByName(x: GroupKey, y: GroupKey, z: GroupKey)
    requires z != x && z != y
    ensures FirstOwner([z, y], map[x := x, y := x]) == Some(x)
  {
    assert [z, y][1..] == [y];
    assert FirstOwner([y], map[x := x, y := x]) == Some(x);
  }

  lemma Read()
    ensures List(FILES, ORDER).out == [AB] && List(FILES, ORDER).files == map["b" := AB]
  {
    Loaded();
    Grouped();
    Records();
    SweptOne();
    hide LoadAll, Group, SweepAll, Normalize, Hashes, Primary, Merge;
    assert [AB][..0] == [] && [AB][1..] == [];
    assert WriteAll(FILES, [AB], true) == map["b" := AB];
    assert Keepers([]) == {} && Keepers([AB]) == {"b"} + Keepers([]);
    ReadSteps(FILES, ORDER, [A, B], [AB]);
  }

  lemma SweptOne()
    ensures SweepAll([AB]).out == [AB]
  {
    Records();
    hide Normalize, SweepAll, Absorb;
    AbsorbEmpty(AB);
    SweepFirst(AB, []);
    SweepEmpty();
    assert [AB] + [] == [AB];
  }

  lemma ReadSteps(files: Files, order: seq<string>, raw: seq<Contact>, out: seq<Contact>)
    requires LoadAll(files, order) == raw && SweepAll(Values(Group(raw).groups)).out == out && |raw| > |out|
    ensures List(files, order).out == out
    ensures exists drop :: List(files, order).files == WriteAll(files, out, true) - (drop - Keepers(out))
  {
    hide LoadAll, Group, SweepAll, WriteAll, Keepers, Stray;
    var drop := Group(raw).orphans + SweepAll(Values(Group(raw).groups)).orphans + Stray(out);
    assert List(files, order).files == WriteAll(files, out, true) - (drop - Keepers(out));
  }

  lemma NoMatch()
    ensures FirstMatch([AB], STRANGER, Plainly()) == None
  {
    Records();
    hide Normalize, Hashes;
    assert [AB][1..] == [];
    assert !NamesRelated(AB.name, "");
  }

  /** One refresh about somebody else moves the stored address "1.1.1.1" out of the scope. */
  lemma MergeMovesAddressOut()
    ensures SameLanScope(S.files["b"].ip, SCOPE)
    ensures var t := Sync(S, STRANGER, Plainly(), SCOPE, ORDER);
            "b" in t.files && t.files["b"].lan == "b" && t.files["b"].ip == "2.2.2.2" && !SameLanScope(t.files["b"].ip, SCOPE)
  {
    Scopes();
    Read();
    NoMatch();
    hide List, SameLanScope, FirstMatch;
    assert !IsDeleted(S.index, "z", "", "");
  }
}
