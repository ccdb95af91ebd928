/** What each form of the Range header asks for. */
module FileRanges {
  import opened Collections
  import opened Decimal
  import opened FileServe
  import opened LanScope

  /** The first dash cuts a text in two; a text without one is not cut. */
  lemma {:induction false} CutIff(s: string, l: string, r: string)
    ensures CutAtDash(s) == Some((l, r)) <==> '-' !in l && s == l + "-" + r
  {
    if s == "" {
    } else if s[0] == '-' {
      assert s == "-" + s[1..];
      assert ("-" + r)[1..] == r;
    } else if l == "" {
      assert (l + "-" + r)[0] == '-';
    } else {
      CutIff(s[1..], l[1..], r);
      CutRest(s, l, r);
      assert l == [l[0]] + l[1..];
      if CutAtDash(s[1..]).Some? {
        var (cut, rest) := CutAtDash(s[1..]).value;
        assert ([s[0]] + cut)[1..] == cut;
      }
    }
  }

  lemma CutRest(s: string, l: string, r: string)
    requires s != "" && l != "" && s[0] != '-'
    ensures '-' !in l && s == l + "-" + r <==> s[0] == l[0] && '-' !in l[1..] && s[1..] == l[1..] + "-" + r
  {
    assert l == [l[0]] + l[1..];
    if s[0] == l[0] && s[1..] == l[1..] + "-" + r {
      assert s == [s[0]] + s[1..] == l + "-" + r;
    }
    if s == l + "-" + r {
      assert s[1..] == l[1..] + "-" + r;
    }
  }

  lemma NoCut(s: string)
    ensures CutAtDash(s) == None <==> '-' !in s
  {
    if CutAtDash(s).Some? {
      var (l, r) := CutAtDash(s).value;
      CutIff(s, l, r);
      assert s[|l|] == '-';
    }
    if '-' in s {
      DashCuts(s);
    }
  }

  lemma {:induction false} DashCuts(s: string)
    requires '-' in s
    ensures CutAtDash(s).Some?
  {
    if s[0] != '-' {
      DashCuts(s[1..]);
    }
  }

  lemma SpecOf(spec: string)
    ensures StartsWith("bytes=" + spec, "bytes=") && ("bytes=" + spec)[6..] == spec
  {
  }

  lemma Cuts(l: string, r: string)
    requires '-' !in l
    ensures CutAtDash(l + "-" + r) == Some((l, r))
    ensures StartsWith("bytes=" + l + "-" + r, "bytes=") && ("bytes=" + l + "-" + r)[6..] == l + "-" + r
  {
    CutIff(l + "-" + r, l, r);
    SpecOf(l + "-" + r);
    hide CutAtDash, StartsWith;
    Associate("bytes=", l, "-");
    Associate("bytes=", l + "-", r);
  }

  /** "bytes=a-b" is the span from a to b, cut off at the end of the file, and refused when nothing of it is there. */
  lemma FromTo(l: string, r: string, a: nat, b: nat, total: nat)
    requires Writes(l, a) && Writes(r, b) && '-' !in l
    ensures Resolve("bytes=" + l + "-" + r, total)
         == if a <= b && a < total then Serve(Span(a, if b < total then b else total - 1)) else Unsatisfiable
  {
    ParseIntIff(l, a);
    ParseIntIff(r, b);
    assert l != "" && r != "";
    hide Writes, ParseInt, CutAtDash;
    Cuts(l, r);
  }

  /** "bytes=a-" runs from a to the end. */
  lemma FromOn(l: string, a: nat, total: nat)
    requires Writes(l, a) && '-' !in l
    ensures Resolve("bytes=" + l + "-", total) == if a < total then Serve(Span(a, total - 1)) else Unsatisfiable
  {
    Cuts(l, "");
    assert "bytes=" + l + "-" + "" == "bytes=" + l + "-";
    ParseIntIff(l, a);
  }

  /** "bytes=-b" is the span from 0 to b. */
  lemma ToEnd(r: string, b: nat, total: nat)
    requires Writes(r, b)
    ensures Resolve("bytes=-" + r, total)
         == if total > 0 then Serve(Span(0, if b < total then b else total - 1)) else Unsatisfiable
  {
    ParseIntIff(r, b);
    assert r != "";
    hide Writes, ParseInt, Resolve;
    DashFirst(r);
    UpTo(r, total);
  }

  lemma DashFirst(r: string)
    ensures "bytes=" + "" + "-" + r == "bytes=-" + r
  {
  }

  lemma UpTo(r: string, total: nat)
    requires r != "" && ParseInt(r).Some? && ParseInt(r).value >= 0
    ensures Resolve("bytes=" + "" + "-" + r, total)
         == if total > 0 then Serve(Span(0, Min(total - 1, ParseInt(r).value))) else Unsatisfiable
  {
    hide ParseInt, CutAtDash;
    Cuts("", r);
  }

  /** The same forms with the numbers in plain decimal. */
  lemma PlainForms(a: nat, b: nat, total: nat)
    ensures Resolve("bytes=" + Dec(a) + "-" + Dec(b), total)
         == if a <= b && a < total then Serve(Span(a, if b < total then b else total - 1)) else Unsatisfiable
    ensures Resolve("bytes=" + Dec(a) + "-", total) == if a < total then Serve(Span(a, total - 1)) else Unsatisfiable
    ensures Resolve("bytes=-" + Dec(b), total)
         == if total > 0 then Serve(Span(0, if b < total then b else total - 1)) else Unsatisfiable
  {
    hide Resolve, Dec, Writes;
    DecWrites(a);
    DecWrites(b);
    FromTo(Dec(a), Dec(b), a, b, total);
    FromOn(Dec(a), a, total);
    ToEnd(Dec(b), b, total);
  }

  /** A negative end leaves nothing, whatever the start. */
  lemma NegativeEnd(l: string, r: string, b: int, total: nat)
    requires '-' !in l && Writes(r, b) && b < 0 && (l == "" || exists a: nat :: Writes(l, a))
    ensures Resolve("bytes=" + l + "-" + r, total) == Unsatisfiable
  {
    ParseIntIff(r, b);
    assert r != "";
    hide Writes, ParseInt, Resolve;
    if l != "" {
      var a: nat :| Writes(l, a);
      ParseIntIff(l, a);
    }
    BelowZero(l, r, total);
  }

  lemma BelowZero(l: string, r: string, total: nat)
    requires '-' !in l && (l == "" || ParseInt(l).Some?) && r != "" && ParseInt(r).Some? && ParseInt(r).value < 0
    ensures Resolve("bytes=" + l + "-" + r, total) == Unsatisfiable
  {
    hide ParseInt, CutAtDash;
    Cuts(l, r);
  }

  /** The whole file, which an empty file cannot give. */
  function Whole(total: nat): FileServe.Range {
    if total > 0 then Serve(Span(0, total - 1)) else Unsatisfiable
  }

  ghost predicate NoNumber(s: string) {
    s != "" && forall v :: !Writes(s, v)
  }

  /** Text that is no number on either side, no dash, or nothing but the dash: the whole file. */
  lemma Unreadable(l: string, r: string, spec: string, total: nat)
    requires '-' !in l && (NoNumber(l) || NoNumber(r) || l == r == "") && '-' !in spec
    ensures Resolve("bytes=" + l + "-" + r, total) == Whole(total)
    ensures Resolve("bytes=" + spec, total) == Whole(total)
  {
    Cuts(l, r);
    SpecOf(spec);
    NoCut(spec);
    if ParseInt(l).Some? {
      ParseIntIff(l, ParseInt(l).value);
    }
    if ParseInt(r).Some? {
      ParseIntIff(r, ParseInt(r).value);
    }
  }

  /** A header that does not begin with "bytes=" asks for nothing: the whole file, even an empty one. */
  lemma OtherHeader(header: string, total: nat)
    ensures (exists spec :: header == "bytes=" + spec) || Resolve(header, total) == Serve(Span(0, total - 1))
  {
    if StartsWith(header, "bytes=") {
      assert header == "bytes=" + header[6..];
    }
  }

  /** A download resumed at a gets exactly the rest of the file, with status 206 unless that is all of it. */
  lemma ResumedDownload(file: seq<Byte>, a: nat, chunk: int)
    requires chunk > 0 && a < |file|
    ensures Respond(file, "bytes=" + Dec(a) + "-", chunk)
         == Sent(if a == 0 then 200 else 206, |file| - a, file[a..])
  {
    hide Resolve, Chunks, Dec;
    PlainForms(a, 0, |file|);
    BodyExactIff(file, "bytes=" + Dec(a) + "-", chunk);
    assert file[a..|file|] == file[a..];
  }
}
