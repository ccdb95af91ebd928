/** The chunked file responder and its Range arithmetic (section 14 of RFC 9110, byte ranges). */
module FileServe {
  import opened Collections
  import opened LanScope

  newtype Byte = b: int | 0 <= b < 256

  datatype Span = Span(start: int, end: int)

  datatype Range = Unsatisfiable | Serve(span: Span)

  predicate StartsWith(s: string, p: string) {
    p <= s
  }

  /** Everything before and after the first dash; None when there is none. */
  function CutAtDash(s: string): Option<(string, string)> {
    if s == "" then None
    else if s[0] == '-' then Some(("", s[1..]))
    else match CutAtDash(s[1..])
      case None => None
      case Some((l, r)) => Some(([s[0]] + l, r))
  }

  function Max(a: int, b: int): int {
    if a >= b then a else b
  }

  function Min(a: int, b: int): int {
    if a <= b then a else b
  }

  /** The span a byte-range spec asks for; text that is no number gives the whole file. */
  function SpecSpan(spec: string, total: nat): Span {
    match CutAtDash(spec)
    case None => Span(0, total - 1)
    case Some((left, right)) =>
      if (left != "" && ParseInt(left).None?) || (right != "" && ParseInt(right).None?) then Span(0, total - 1)
      else
        Span(if left != "" then Max(0, ParseInt(left).value) else 0,
             if right != "" then Min(total - 1, ParseInt(right).value) else total - 1)
  }

  /** What a Range header means for a file of total bytes. */
  function Resolve(header: string, total: nat): Range {
    if StartsWith(header, "bytes=") then
      var s := SpecSpan(header[6..], total);
      if s.start > s.end || s.start >= total then Unsatisfiable else Serve(s)
    else Serve(Span(0, total - 1))
  }

  /** A served span lies inside the file, and only an empty file has an empty one. */
  lemma ServedSpanInside(header: string, total: nat)
    requires Resolve(header, total).Serve?
    ensures var s := Resolve(header, total).span;
            if total > 0 then 0 <= s.start <= s.end < total else s == Span(0, -1) && !StartsWith(header, "bytes=")
  {
  }

  /** The source reads "bytes=-N" as the span from 0 to N, not as the last N bytes. */
  lemma SuffixReadAsPrefix(n: string, total: nat)
    requires ParseInt(n).Some? && 0 <= ParseInt(n).value < total
    ensures Resolve("bytes=-" + n, total) == Serve(Span(0, ParseInt(n).value))
  {
    var header := "bytes=-" + n;
    assert header[6..] == ['-'] + n;
    assert header[..6] == "bytes=";
    assert CutAtDash(['-'] + n) == Some(("", n));
  }

  function Length(s: Span): int {
    Max(0, s.end - s.start + 1)
  }

  /** 206 when a Range header asked for less than everything, else 200. */
  function StatusCode(header: string, s: Span, total: nat): int {
    if (s.start != 0 || s.end != total - 1) && header != "" then 206 else 200
  }

  datatype Response = NotSatisfiable | Sent(status: int, contentLength: int, body: seq<Byte>)

  /** file.read(n): at most n bytes, all the rest for a negative n. */
  function Read(file: seq<Byte>, pos: nat, n: int): seq<Byte>
    requires pos <= |file|
  {
    if n < 0 then file[pos..] else file[pos..Min(pos + n, |file|)]
  }

  /** What the chunk loop writes from pos on. */
  function Chunks(file: seq<Byte>, pos: nat, remaining: int, chunk: int): seq<Byte>
    requires pos <= |file|
    decreases |file| - pos
  {
    if remaining <= 0 then []
    else
      var c := Read(file, pos, Min(chunk, remaining));
      if c == [] then [] else c + Chunks(file, pos + |c|, remaining - |c|, chunk)
  }

  /** With a positive chunk size the loop writes exactly the requested bytes. */
  lemma {:induction false} ChunksExact(file: seq<Byte>, pos: nat, remaining: nat, chunk: int)
    requires chunk > 0 && pos + remaining <= |file|
    ensures Chunks(file, pos, remaining, chunk) == file[pos..pos + remaining]
    decreases remaining
  {
    if remaining > 0 {
      var n := Min(chunk, remaining);
      assert Read(file, pos, n) == file[pos..pos + n];
      ChunksExact(file, pos + n, remaining - n, chunk);
      assert file[pos..pos + remaining] == file[pos..pos + n] + file[pos + n..pos + remaining];
    }
  }

  /** For a chunk size of zero nothing is written, for a negative one the whole rest of the file. */
  lemma ChunksOdd(file: seq<Byte>, pos: nat, remaining: int, chunk: int)
    requires chunk <= 0 && pos <= |file| && remaining > 0
    ensures Chunks(file, pos, remaining, chunk) == if chunk == 0 then [] else file[pos..]
  {
    var c := Read(file, pos, chunk);
    if chunk < 0 && c != [] {
      assert pos + |c| == |file|;
      assert Chunks(file, |file|, remaining - |c|, chunk) == [];
    }
  }

  /** stream_file_response on an unchanged file. */
  function Respond(file: seq<Byte>, header: string, chunk: int): Response {
    match Resolve(header, |file|)
    case Unsatisfiable => NotSatisfiable
    case Serve(s) =>
      ServedSpanInside(header, |file|);
      Sent(StatusCode(header, s, |file|), Length(s), Chunks(file, s.start, Length(s), chunk))
  }

  /** The body is the announced span iff the chunk size is positive, or nothing is due,
      or it is negative and the span runs to the end of the file. */
  lemma BodyExactIff(file: seq<Byte>, header: string, chunk: int)
    requires Resolve(header, |file|).Serve?
    ensures var s := Resolve(header, |file|).span;
            var r := Respond(file, header, chunk);
            && 0 <= s.start <= s.end + 1 <= |file|
            && r.contentLength == |file[s.start..s.end + 1]|
            && (r.body == file[s.start..s.end + 1] <==>
                chunk > 0 || file == [] || (chunk < 0 && s.end == |file| - 1))
  {
    ServedSpanInside(header, |file|);
    var s := Resolve(header, |file|).span;
    if chunk > 0 {
      ChunksExact(file, s.start, Length(s), chunk);
    } else if Length(s) > 0 {
      ChunksOdd(file, s.start, Length(s), chunk);
      assert file[s.start..s.end + 1] != [];
      if s.end != |file| - 1 {
        assert |file[s.start..]| != |file[s.start..s.end + 1]|;
      } else {
        assert file[s.start..] == file[s.start..s.end + 1];
      }
    }
  }

  /** A whole file is answered with 200 unless a header asked for part of it. */
  lemma StatusMeaning(file: seq<Byte>, header: string, chunk: int)
    requires chunk > 0 && Respond(file, header, chunk).Sent?
    ensures var r := Respond(file, header, chunk);
            && (r.status == 200 || r.status == 206)
            && (r.status == 200 <==> r.body == file)
            && |r.body| == r.contentLength
  {
    BodyExactIff(file, header, chunk);
    ServedSpanInside(header, |file|);
    var s := Resolve(header, |file|).span;
    if s != Span(0, |file| - 1) {
      assert |file[s.start..s.end + 1]| < |file|;
    } else {
      assert file[0..|file|] == file;
    }
  }

  lemma ChunksStep(file: seq<Byte>, pos: nat, remaining: int, chunk: int)
    requires pos <= |file|
    ensures var c := Read(file, pos, Min(chunk, remaining));
            && pos + |c| <= |file|
            && Chunks(file, pos, remaining, chunk)
               == if remaining <= 0 || c == [] then [] else c + Chunks(file, pos + |c|, remaining - |c|, chunk)
  {
  }

  /** The chunk loop of the source. */
  method WriteChunks(file: seq<Byte>, start: nat, length: int, chunk: int) returns (body: seq<Byte>)
    requires start <= |file|
    ensures body == Chunks(file, start, length, chunk)
  {
    hide Chunks, Read;
    body := [];
    var pos, remaining := start, length;

    while remaining > 0
      invariant start <= pos <= |file|
      invariant body + Chunks(file, pos, remaining, chunk) == Chunks(file, start, length, chunk)
      decreases |file| - pos, remaining
    {
      var c := Read(file, pos, Min(chunk, remaining));
      ChunksStep(file, pos, remaining, chunk);
      if c == [] {
        break;
      }
      Associate(body, c, Chunks(file, pos + |c|, remaining - |c|, chunk));
      body, pos, remaining := body + c, pos + |c|, remaining - |c|;
    }
    ChunksStep(file, pos, remaining, chunk);
  }

  method StreamFile(file: seq<Byte>, header: string, chunk: int) returns (r: Response)
    ensures r == Respond(file, header, chunk)
  {
    var range := Resolve(header, |file|);
    if range.Unsatisfiable? {
      return NotSatisfiable;
    }
    ServedSpanInside(header, |file|);
    var s := range.span;
    var body := WriteChunks(file, s.start, Length(s), chunk);
    r := Sent(StatusCode(header, s, |file|), Length(s), body);
  }
}
