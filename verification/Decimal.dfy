/** What number a text is read as: the decimal printer and the reader are inverse to each other. */
module Decimal {
  import opened Collections
  import opened LanScope

  function Digit(d: nat): (c: char)
    requires d < 10
    ensures '0' <= c <= '9' && (c - '0') as nat == d
  {
    '0' + d as char
  }

  /** n in decimal, without leading zeros. */
  function Dec(n: nat): (s: string)
    ensures IsDigits(s)
  {
    if n < 10 then [Digit(n)] else Dec(n / 10) + [Digit(n % 10)]
  }

  function Zeros(k: nat): (s: string)
    ensures |s| == k && forall i :: 0 <= i < k ==> s[i] == '0'
  {
    seq(k, _ => '0')
  }

  /** s spells n: any number of zeros before its decimal form. */
  ghost predicate Spells(s: string, n: nat) {
    exists k: nat :: s == Zeros(k) + Dec(n)
  }

  lemma ZerosAreZero(k: nat)
    ensures DigitsValue(Zeros(k)) == 0
  {
    if k > 0 {
      assert Zeros(k)[..k - 1] == Zeros(k - 1);
      ZerosAreZero(k - 1);
    }
  }

  lemma {:induction false} SpelledValue(k: nat, n: nat)
    ensures IsDigits(Zeros(k) + Dec(n)) && DigitsValue(Zeros(k) + Dec(n)) == n
    decreases n
  {
    var s := Zeros(k) + Dec(n);
    if n < 10 {
      assert s[..|s| - 1] == Zeros(k);
      ZerosAreZero(k);
    } else {
      assert s[..|s| - 1] == Zeros(k) + Dec(n / 10);
      SpelledValue(k, n / 10);
    }
  }

  lemma LastDigit(s: string)
    requires IsDigits(s)
    ensures var init, v := s[..|s| - 1], DigitsValue(s);
            && s == init + [Digit(v % 10)] && v / 10 == DigitsValue(init)
            && (init == "" ==> v < 10)
  {
  }

  lemma {:induction false} DigitsSpell(s: string)
    requires IsDigits(s)
    ensures Spells(s, DigitsValue(s))
    decreases |s|
  {
    var init, v := s[..|s| - 1], DigitsValue(s);
    LastDigit(s);
    hide DigitsValue, Dec, Zeros;
    if init == "" {
      SpellDigit(s, v);
    } else {
      DigitsSpell(init);
      var k: nat :| init == Zeros(k) + Dec(v / 10);
      SpellLast(s, k, v);
    }
  }

  lemma SpellDigit(s: string, v: nat)
    requires v < 10 && s == [Digit(v)]
    ensures Spells(s, v)
  {
    assert s == Zeros(0) + Dec(v);
  }

  lemma SpellLast(s: string, k: nat, v: nat)
    requires s == Zeros(k) + Dec(v / 10) + [Digit(v % 10)]
    ensures Spells(s, v)
  {
    if v < 10 {
      assert Dec(v / 10) == ['0'] && Zeros(k) + ['0'] == Zeros(k + 1);
      assert s == Zeros(k + 1) + Dec(v);
    } else {
      assert s == Zeros(k) + Dec(v);
    }
  }

  /** A text of digits is read as n exactly when it spells n. */
  lemma DigitsReadIff(s: string, n: nat)
    ensures IsDigits(s) && DigitsValue(s) == n <==> Spells(s, n)
  {
    if IsDigits(s) && DigitsValue(s) == n {
      DigitsSpell(s);
    }
    if k: nat :| s == Zeros(k) + Dec(n) {
      SpelledValue(k, n);
    }
  }

  /** What a number text may look like: digits, or digits behind one sign. */
  ghost predicate Writes(s: string, v: int) {
    || (v >= 0 && Spells(s, v))
    || (v >= 0 && s != "" && s[0] == '+' && Spells(s[1..], v))
    || (v <= 0 && s != "" && s[0] == '-' && Spells(s[1..], -v))
  }

  /** The reader answers v exactly on the texts that write v. */
  lemma ParseIntIff(s: string, v: int)
    ensures ParseInt(s) == Some(v) <==> Writes(s, v)
  {
    hide Dec, DigitsValue, Spells;
    if v >= 0 {
      DigitsReadIff(s, v);
    }
    if s != "" && v >= 0 {
      DigitsReadIff(s[1..], v);
    }
    if s != "" && v <= 0 {
      DigitsReadIff(s[1..], -v);
    }
  }

  lemma DecWrites(n: nat)
    ensures Writes(Dec(n), n) && ParseInt(Dec(n)) == Some(n) && '-' !in Dec(n)
  {
    assert Dec(n) == Zeros(0) + Dec(n);
    ParseIntIff(Dec(n), n);
  }

  /** The parts put back together with the separator between them. */
  function Join(parts: seq<string>, sep: char): string
    requires |parts| >= 1
  {
    if |parts| == 1 then parts[0] else parts[0] + [sep] + Join(parts[1..], sep)
  }

  /** Splitting is the one way to write a text as parts without the separator. */
  lemma {:induction false} SplitIff(s: string, sep: char, parts: seq<string>)
    requires |parts| >= 1
    ensures Split(s, sep) == parts <==> Join(parts, sep) == s && forall p :: p in parts ==> sep !in p
  {
    SplitJoins(s, sep);
    if Join(parts, sep) == s && forall p :: p in parts ==> sep !in p {
      JoinSplits(parts, sep);
    }
  }

  lemma {:induction false} SplitJoins(s: string, sep: char)
    ensures Join(Split(s, sep), sep) == s && forall p :: p in Split(s, sep) ==> sep !in p
  {
    if s != "" {
      var rest := Split(s[1..], sep);
      SplitJoins(s[1..], sep);
      if s[0] == sep {
        assert Split(s, sep) == [""] + rest;
        JoinNewPart(rest, sep);
      } else {
        assert Split(s, sep) == [[s[0]] + rest[0]] + rest[1..];
        JoinLonger(s[0], rest, sep);
      }
      assert s == [s[0]] + s[1..];
    }
  }

  lemma JoinNewPart(rest: seq<string>, sep: char)
    requires |rest| >= 1
    ensures Join([""] + rest, sep) == [sep] + Join(rest, sep)
  {
    assert ([""] + rest)[1..] == rest;
  }

  lemma JoinLonger(c: char, rest: seq<string>, sep: char)
    requires |rest| >= 1 && c != sep && forall p :: p in rest ==> sep !in p
    ensures var parts := [[c] + rest[0]] + rest[1..];
            Join(parts, sep) == [c] + Join(rest, sep) && forall p :: p in parts ==> sep !in p
  {
    var parts := [[c] + rest[0]] + rest[1..];
    assert parts[1..] == rest[1..] && rest[0] in rest;
    if |rest| > 1 {
      Associate([c], rest[0], [sep] + Join(rest[1..], sep));
      Associate([c] + rest[0], [sep], Join(rest[1..], sep));
      Associate(rest[0], [sep], Join(rest[1..], sep));
    }
  }

  lemma {:induction false} JoinSplits(parts: seq<string>, sep: char)
    requires |parts| >= 1 && forall p :: p in parts ==> sep !in p
    ensures Split(Join(parts, sep), sep) == parts
    decreases |parts|, |parts[0]|
  {
    var s := Join(parts, sep);
    var first := parts[0];
    assert first in parts;
    if first != "" {
      var less := [first[1..]] + parts[1..];
      assert less[1..] == parts[1..];
      assert s[0] == first[0] && s[1..] == Join(less, sep);
      JoinSplits(less, sep);
      assert first == [s[0]] + less[0];
      assert parts == [first] + less[1..];
    } else if |parts| > 1 {
      assert s == [sep] + Join(parts[1..], sep);
      JoinSplits(parts[1..], sep);
      assert parts == [""] + parts[1..];
    } else {
      assert parts == [""];
    }
  }

  /** An IPv4 address in its usual form. */
  function Quad(a: seq<nat>): string
    requires |a| == 4
  {
    Join([Dec(a[0]), Dec(a[1]), Dec(a[2]), Dec(a[3])], '.')
  }

  lemma QuadParts(a: seq<nat>)
    requires |a| == 4
    ensures Split(Quad(a), '.') == [Dec(a[0]), Dec(a[1]), Dec(a[2]), Dec(a[3])]
  {
    JoinSplits([Dec(a[0]), Dec(a[1]), Dec(a[2]), Dec(a[3])], '.');
  }

  lemma DecInjective(a: nat, b: nat)
    ensures Dec(a) == Dec(b) <==> a == b
  {
    DecWrites(a);
    DecWrites(b);
  }

  /** Two addresses share a LAN scope when their first three numbers agree, or when both lie in 172.16.0.0/12, or both in
      192.168.0.0/16. */
  lemma QuadScope(a: seq<nat>, b: seq<nat>)
    requires |a| == 4 && |b| == 4
    ensures SameLanScope(Quad(a), Quad(b)) <==>
              || a[..3] == b[..3]
              || (a[0] == 172 && b[0] == 172 && 16 <= a[1] < 32 && 16 <= b[1] < 32)
              || (a[0] == 192 && b[0] == 192 && a[1] == 168 && b[1] == 168)
  {
    hide Quad, Dec, SameLanScope, Split, ParseInt, Writes, IsDigits, DigitsValue;
    QuadParts(a);
    QuadParts(b);
    SameScopeMeaning(Quad(a), Quad(b));
    DecWrites(a[0]);
    DecWrites(a[1]);
    DecWrites(b[0]);
    DecWrites(b[1]);
    DecInjective(a[0], b[0]);
    DecInjective(a[1], b[1]);
    DecInjective(a[2], b[2]);
    FirstThree([Dec(a[0]), Dec(a[1]), Dec(a[2]), Dec(a[3])], [Dec(b[0]), Dec(b[1]), Dec(b[2]), Dec(b[3])]);
    FirstThree(a, b);
  }

  lemma FirstThree<T>(a: seq<T>, b: seq<T>)
    requires |a| == 4 && |b| == 4
    ensures a[..3] == b[..3] <==> a[0] == b[0] && a[1] == b[1] && a[2] == b[2]
  {
    if a[..3] == b[..3] {
      assert a[..3][0] == b[..3][0] && a[..3][1] == b[..3][1] && a[..3][2] == b[..3][2];
    }
  }
}
