/** The contact directory and its deleted index, changed in place. */
module ContactDirectory {
  import opened Collections
  import opened Contacts
  import opened ContactStore

  method LoadLoop(files: Files, order: seq<string>) returns (raw: seq<Contact>)
    ensures raw == LoadAll(files, order)
  {
    hide Load;
    raw := [];
    var i := |order|;
    while i > 0
      invariant 0 <= i <= |order| && raw == LoadAll(files, order[i..])
    {
      i := i - 1;
      assert order[i..][0] == order[i] && order[i..][1..] == order[i + 1..];
      if order[i] in files {
        raw := [Load(order[i], files[order[i]])] + raw;
      }
    }
    assert order[0..] == order;
  }

  /** First pass. */
  method GroupLoop(raw: seq<Contact>) returns (g: Grouping)
    ensures g == Group(raw)
  {
    hide GroupStep;
    g := Grouping(Empty(), map[], {});
    for i := 0 to |raw|
      invariant g == Group(raw[..i])
    {
      assert raw[..i + 1][..i] == raw[..i];
      g := GroupStep(g, raw[i]);
    }
    assert raw[..|raw|] == raw;
  }

  /** Second pass: each row in turn absorbs the later rows it relates to. */
  method SweepLoop(rows: seq<Contact>) returns (out: seq<Contact>, orphans: set<Hash>)
    ensures Swept(out, orphans) == SweepAll(rows)
  {
    hide SweepStep, Normalize;
    out, orphans := [], {};
    var todo := rows;
    while todo != []
      invariant SweepAll(rows) == Swept(out + SweepAll(todo).out, orphans + SweepAll(todo).orphans)
      decreases |todo|
    {
      var later := todo[1..];
      var s := Sweep(Normalize(todo[0]), [], {});
      for j := 0 to |later|
        invariant s == Absorb(Normalize(todo[0]), later[..j])
      {
        assert later[..j + 1][..j] == later[..j];
        s := SweepStep(s, later[j]);
      }
      assert later[..|later|] == later;
      ghost var rest := SweepAll(s.rest);
      assert (out + [s.current]) + rest.out == out + ([s.current] + rest.out);
      assert (orphans + s.orphans) + rest.orphans == orphans + (s.orphans + rest.orphans);
      out, orphans, todo := out + [s.current], orphans + s.orphans, s.rest;
    }
  }

  method StrayLoop(out: seq<Contact>) returns (strays: set<Hash>, keepers: set<Hash>)
    ensures strays == Stray(out) && keepers == Keepers(out)
  {
    hide Hashes, Primary;
    strays, keepers := {}, {};
    var i := |out|;
    while i > 0
      invariant 0 <= i <= |out| && strays == Stray(out[i..]) && keepers == Keepers(out[i..])
    {
      i := i - 1;
      assert out[i..][0] == out[i] && out[i..][1..] == out[i + 1..];
      strays, keepers := (Hashes(out[i]) - {Primary(out[i])}) + strays, {Primary(out[i])} + keepers;
    }
    assert out[0..] == out;
  }

  class Directory {
    var files: Files
    var index: Index

    function State(): Store
      reads this
    {
      Store(files, index)
    }

    constructor ()
      ensures State() == Store(map[], Index({}, {}, {}))
    {
      files, index := map[], Index({}, {}, {});
    }

    /** list_contacts: merges what it reads and writes the result back. */
    method ListContacts(order: seq<string>) returns (out: seq<Contact>)
      modifies `files
      ensures Listing(out, files) == List(old(files), order)
    {
      hide LoadAll, Group, SweepAll, Stray, Keepers, WriteBack;
      var raw := LoadLoop(files, order);
      var g := GroupLoop(raw);
      var orphans;
      out, orphans := SweepLoop(Values(g.groups));
      var strays, keepers := StrayLoop(out);
      orphans := g.orphans + orphans + strays;
      var persist := |raw| > |out| || orphans != {};
      ghost var before := files;
      for i := 0 to |out|
        invariant files == WriteAll(before, out[..i], persist)
      {
        assert out[..i + 1][..i] == out[..i];
        files := WriteBack(files, out[i], persist);
      }
      assert out[..|out|] == out;
      files := files - (orphans - keepers);
    }

    method FindContact(h: Hash, order: seq<string>) returns (c: Option<Contact>)
      modifies `files
      ensures files == List(old(files), order).files
      ensures c == if h == "" then None else FindIn(List(old(files), order).out, h)
      ensures c.Some? ==> h in Hashes(c.value)
    {
      hide List;
      var out := ListContacts(order);
      c := if h == "" then None else FindIn(out, h);
    }

    /** delete_contact. */
    method DeleteContact(h: Hash, order: seq<string>, again: seq<string>)
      modifies this
      ensures h != "" ==> State() == Delete(old(State()), h, order, again)
      ensures h == "" ==> State() == old(State())
    {
      hide List, Hashes, Load, Record, RelatedNames, RelatedFiles;
      if h == "" {
        return;
      }
      var found := FindContact(h, order);
      if found.Some? {
        var names := RelatedNames(files, again, found.value);
        ghost var idx := index;
        for i := 0 to |names|
          invariant index == RecordAll(idx, files, names[..i]) && files == List(old(files), order).files
        {
          assert names[..i + 1][..i] == names[..i];
          var f := names[i];
          if f in files {
            index := Record(index, Load(f, files[f]));
          }
        }
        assert names[..|names|] == names;
        var related := RelatedFiles(files, found.value);
        files := files - (if related == {} then {h} else related);
      } else if h in files {
        index := Record(index, Load(h, files[h]));
        files := files - {h};
      }
    }

    /** sync_contact_from_discovery. */
    method SyncFromDiscovery(r: Report, equal: (Hash, Hash) -> bool, scope: string, order: seq<string>)
      modifies `files
      ensures State() == Sync(old(State()), r, equal, scope, order)
    {
      hide List, MatchesReport, Refresh, Rewrite, IsDeleted, Normalize;
      if r.hash == "" || IsDeleted(index, r.hash, r.identity, r.name) {
        return;
      }
      var out := ListContacts(order);
      var i := 0;
      while i < |out|
        invariant 0 <= i <= |out| && FirstMatch(out, r, equal) == FirstMatch(out[i..], r, equal)
      {
        if MatchesReport(out[i], r, equal) {
          var e := Refresh(out[i], r, scope);
          if e != Normalize(out[i]) || r.identity != "" {
            files := Rewrite(files, out[i], e, r.hash);
          }
          return;
        }
        i := i + 1;
      }
    }

    /** The index part of save_contact. */
    method ClearContactDeleted(saved: Contact, h: Hash)
      modifies `index
      ensures index == ClearDeleted(old(index), saved, h)
    {
      var targets := Hashes(saved) + (if h != "" then {h} else {});
      index := index.(hashes := index.hashes - targets, identities := index.identities - targets);
    }
  }
}
