/** LAN scope matching on dotted IPv4 strings. */
module LanScope {
  import opened Collections

  /** Python's split on a one-character separator: n separators give n + 1 parts. */
  function Split(s: string, sep: char): (parts: seq<string>)
    ensures |parts| >= 1
  {
    if s == "" then [""]
    else
      var rest := Split(s[1..], sep);
      if s[0] == sep then [""] + rest else [[s[0]] + rest[0]] + rest[1..]
  }

  predicate IsDigits(s: string) {
    s != "" && forall i :: 0 <= i < |s| ==> '0' <= s[i] <= '9'
  }

  function DigitsValue(s: string): nat
    requires forall i :: 0 <= i < |s| ==> '0' <= s[i] <= '9'
  {
    if s == "" then 0 else 10 * DigitsValue(s[..|s| - 1]) + (s[|s| - 1] - '0') as nat
  }

  /** int(text) on plain decimal text, None for ValueError. */
  function ParseInt(s: string): Option<int> {
    if IsDigits(s) then Some(DigitsValue(s))
    else if s != "" && s[0] == '-' && IsDigits(s[1..]) then Some(-(DigitsValue(s[1..]) as int))
    else if s != "" && s[0] == '+' && IsDigits(s[1..]) then Some(DigitsValue(s[1..]))
    else None
  }

  predicate FourPart(ip: string) {
    |Split(ip, '.')| == 4
  }

  /** The private ranges that match as a whole. */
  datatype Range = Net172 | Net192 | NoRange

  function RangeOf(a0: Option<int>, a1: Option<int>): Range {
    if a0 == Some(172) && a1.Some? && 16 <= a1.value <= 31 then Net172
    else if a0 == Some(192) && a1 == Some(168) then Net192
    else NoRange
  }

  predicate SameLanScope(a: string, b: string) {
    if a == "" || b == "" then false
    else
      var pa, pb := Split(a, '.'), Split(b, '.');
      if |pa| != 4 || |pb| != 4 then false
      else if pa[..3] == pb[..3] then true
      else
        var a0, a1, b0, b1 := ParseInt(pa[0]), ParseInt(pa[1]), ParseInt(pb[0]), ParseInt(pb[1]);
        if a0.None? || a1.None? || b0.None? || b1.None? then false
        else if a0 == b0 == Some(172) && 16 <= a1.value <= 31 && 16 <= b1.value <= 31 then true
        else a0 == b0 == Some(192) && a1 == b1 == Some(168)
  }

  predicate InScope(ip: string, scope: string) {
    ip != "" && scope != "" && SameLanScope(ip, scope)
  }

  /** Two addresses share a scope iff they share the first three parts or a private range. */
  lemma SameScopeMeaning(a: string, b: string)
    ensures SameLanScope(a, b) <==>
              && FourPart(a) && FourPart(b)
              && var pa, pb := Split(a, '.'), Split(b, '.');
                 var ra := RangeOf(ParseInt(pa[0]), ParseInt(pa[1]));
                 pa[..3] == pb[..3] || (ra != NoRange && ra == RangeOf(ParseInt(pb[0]), ParseInt(pb[1])))
  {
    if FourPart(a) && FourPart(b) {
      assert a != "" && b != "";
    }
  }

  /** An equivalence relation on four-part addresses; nothing else is related to anything. */
  lemma SameScopeEquivalence(a: string, b: string, c: string)
    ensures SameLanScope(a, a) <==> FourPart(a)
    ensures SameLanScope(a, b) <==> SameLanScope(b, a)
    ensures SameLanScope(a, b) && SameLanScope(b, c) ==> SameLanScope(a, c)
  {
    SameScopeMeaning(a, a);
    SameScopeMeaning(a, b);
    SameScopeMeaning(b, a);
    SameScopeMeaning(b, c);
    SameScopeMeaning(a, c);
    if SameLanScope(a, b) && SameLanScope(b, c) {
      var pa, pb, pc := Split(a, '.'), Split(b, '.'), Split(c, '.');
      assert pa[..3] == pb[..3] ==> pa[0] == pa[..3][0] == pb[0] && pa[1] == pa[..3][1] == pb[1];
      assert pb[..3] == pc[..3] ==> pb[0] == pb[..3][0] == pc[0] && pb[1] == pb[..3][1] == pc[1];
    }
  }

  /** 10.0.0.0/8 is not one scope: there only the first three parts decide. */
  lemma TenNetBySubnet(a: string, b: string)
    requires ParseInt(Split(a, '.')[0]) == Some(10)
    ensures SameLanScope(a, b) <==> FourPart(a) && FourPart(b) && Split(a, '.')[..3] == Split(b, '.')[..3]
  {
    SameScopeMeaning(a, b);
  }
}
