/** Sequence filters and the insertion-ordered dictionaries the program keeps its state in. */
module Collections {

  datatype Option<+T> = None | Some(value: T)

  ghost predicate Distinct<T>(s: seq<T>) {
    forall i, j :: 0 <= i < j < |s| ==> s[i] != s[j]
  }

  lemma Associate<T>(a: seq<T>, b: seq<T>, c: seq<T>)
    ensures (a + b) + c == a + (b + c)
  {
  }

  /** The elements of s that satisfy p, in order. */
  function Filter<T(!new)>(s: seq<T>, p: T -> bool): (r: seq<T>)
    ensures |r| <= |s|
    ensures forall x :: x in r <==> x in s && p(x)
  {
    if s == [] then []
    else if p(s[0]) then [s[0]] + Filter(s[1..], p)
    else Filter(s[1..], p)
  }

  lemma {:induction false} FilterAppend<T(!new)>(a: seq<T>, b: seq<T>, p: T -> bool)
    ensures Filter(a + b, p) == Filter(a, p) + Filter(b, p)
  {
    if a == [] {
      assert a + b == b;
    } else {
      assert (a + b)[0] == a[0] && (a + b)[1..] == a[1..] + b;
      FilterAppend(a[1..], b, p);
      Associate([a[0]], Filter(a[1..], p), Filter(b, p));
    }
  }

  lemma FilterSnoc<T(!new)>(s: seq<T>, x: T, p: T -> bool)
    ensures Filter(s + [x], p) == if p(x) then Filter(s, p) + [x] else Filter(s, p)
  {
    FilterAppend(s, [x], p);
    assert Filter([x], p) == if p(x) then [x] else [];
  }

  lemma FilterAll<T(!new)>(s: seq<T>, p: T -> bool)
    requires forall x :: x in s ==> p(x)
    ensures Filter(s, p) == s
  {
    if s != [] {
      FilterAll(s[1..], p);
    }
  }

  lemma FilterNone<T(!new)>(s: seq<T>, p: T -> bool)
    requires forall x :: x in s ==> !p(x)
    ensures Filter(s, p) == []
  {
  }

  lemma FilterSame<T(!new)>(s: seq<T>, p: T -> bool, q: T -> bool)
    requires forall x :: x in s ==> p(x) == q(x)
    ensures Filter(s, p) == Filter(s, q)
  {
    if s != [] {
      FilterSame(s[1..], p, q);
    }
  }

  /** Filtering twice is filtering by both tests. */
  lemma FilterTwice<T(!new)>(s: seq<T>, p: T -> bool, q: T -> bool)
    ensures Filter(Filter(s, p), q) == Filter(s, x => p(x) && q(x))
  {
    if s != [] {
      FilterTwice(s[1..], p, q);
    }
  }

  lemma FilterDistinct<T(!new)>(s: seq<T>, p: T -> bool)
    requires Distinct(s)
    ensures Distinct(Filter(s, p))
  {
    if s != [] {
      FilterDistinct(s[1..], p);
    }
  }

  lemma DistinctAppend<T>(s: seq<T>, x: T)
    requires Distinct(s) && x !in s
    ensures Distinct(s + [x])
  {
  }

  /** A dictionary that remembers the order in which its keys were inserted. */
  datatype RawDict<K, V> = RawDict(keys: seq<K>, vals: map<K, V>)

  ghost predicate WellFormed<K, V>(d: RawDict<K, V>) {
    && Distinct(d.keys)
    && (forall k :: k in d.keys ==> k in d.vals)
    && (forall k :: k in d.vals ==> k in d.keys)
  }

  type Dict<!K(==, !new), !V> = d: RawDict<K, V> | WellFormed(d) witness RawDict([], map[])

  function Empty<K(==, !new), V>(): Dict<K, V> {
    RawDict([], map[])
  }

  function Get<K(==, !new), V>(d: Dict<K, V>, k: K): Option<V> {
    if k in d.vals then Some(d.vals[k]) else None
  }

  /** Assignment: an existing key keeps its place, a new one goes last. */
  function Put<K(==, !new), V>(d: Dict<K, V>, k: K, v: V): (r: Dict<K, V>)
    ensures r.vals == d.vals[k := v]
    ensures r.keys == if k in d.vals then d.keys else d.keys + [k]
  {
    if k in d.vals then RawDict(d.keys, d.vals[k := v])
    else
      DistinctAppend(d.keys, k);
      RawDict(d.keys + [k], d.vals[k := v])
  }

  function Passing<K(==, !new), V>(d: Dict<K, V>, p: (K, V) -> bool): K -> bool {
    k => k in d.vals && p(k, d.vals[k])
  }

  /** The entries whose key and value pass the test, in order. */
  function Keep<K(==, !new), V>(d: Dict<K, V>, p: (K, V) -> bool): (r: Dict<K, V>)
    ensures forall k :: k in r.vals <==> k in d.vals && p(k, d.vals[k])
    ensures forall k :: k in r.vals ==> r.vals[k] == d.vals[k]
    ensures r.keys == Filter(d.keys, Passing(d, p))
  {
    FilterDistinct(d.keys, Passing(d, p));
    RawDict(Filter(d.keys, Passing(d, p)), map k | k in d.vals && p(k, d.vals[k]) :: d.vals[k])
  }

  lemma KeepSame<K(!new), V>(d: Dict<K, V>, p: (K, V) -> bool, q: (K, V) -> bool)
    requires forall k :: k in d.vals ==> p(k, d.vals[k]) == q(k, d.vals[k])
    ensures Keep(d, p) == Keep(d, q)
  {
    FilterSame(d.keys, Passing(d, p), Passing(d, q));
    assert Keep(d, p).vals == Keep(d, q).vals;
  }

  lemma KeepAll<K(!new), V>(d: Dict<K, V>, p: (K, V) -> bool)
    requires forall k :: k in d.vals ==> p(k, d.vals[k])
    ensures Keep(d, p) == d
  {
    FilterAll(d.keys, Passing(d, p));
    SameKeys(d, Keep(d, p), d);
  }

  function Without<K(==, !new)>(s: seq<K>, k: K): (r: seq<K>)
    ensures forall x :: x in r <==> x in s && x != k
  {
    if s == [] then [] else if s[0] == k then Without(s[1..], k) else [s[0]] + Without(s[1..], k)
  }

  lemma {:induction false} WithoutAbsent<K(!new)>(s: seq<K>, k: K)
    requires k !in s
    ensures Without(s, k) == s
  {
    if s != [] {
      assert s[0] in s;
      WithoutAbsent(s[1..], k);
    }
  }

  lemma {:induction false} WithoutDistinct<K(!new)>(s: seq<K>, k: K)
    requires Distinct(s)
    ensures Distinct(Without(s, k))
  {
    if s != [] {
      var rest := Without(s[1..], k);
      WithoutDistinct(s[1..], k);
      assert s[0] !in s[1..] && s[0] !in rest;
    }
  }

  function Remove<K(==, !new), V>(d: Dict<K, V>, k: K): (r: Dict<K, V>)
    ensures r.vals == d.vals - {k}
    ensures r.keys == Without(d.keys, k)
    ensures k !in d.vals ==> r == d
  {
    WithoutDistinct(d.keys, k);
    if k !in d.vals then
      WithoutAbsent(d.keys, k);
      d
    else RawDict(Without(d.keys, k), d.vals - {k})
  }

  lemma {:induction false} WithoutMiddle<K(!new)>(a: seq<K>, k: K, b: seq<K>)
    requires k !in a && k !in b
    ensures Without(a + [k] + b, k) == a + b
  {
    if a == [] {
      assert a + [k] + b == [k] + b && ([k] + b)[1..] == b && a + b == b;
      WithoutAbsent(b, k);
    } else {
      assert a[0] in a;
      assert (a + [k] + b)[0] == a[0] && (a + [k] + b)[1..] == a[1..] + [k] + b;
      WithoutMiddle(a[1..], k, b);
      assert a + b == [a[0]] + (a[1..] + b);
    }
  }

  lemma DistinctSplit<T>(s: seq<T>, i: nat)
    requires Distinct(s) && i < |s|
    ensures s[i] !in s[..i] && s[i] !in s[i + 1..]
    ensures s[..i + 1] == s[..i] + [s[i]] && s[i..] == [s[i]] + s[i + 1..]
  {
  }

  lemma KeysStep<K(!new), V>(d: Dict<K, V>, p: (K, V) -> bool, i: nat, keys: seq<K>)
    requires i < |d.keys| && keys == Filter(d.keys[..i], Passing(d, p)) + d.keys[i..]
    ensures Filter(d.keys[..i + 1], Passing(d, p)) + d.keys[i + 1..]
         == if Passing(d, p)(d.keys[i]) then keys else Without(keys, d.keys[i])
  {
    DistinctSplit(d.keys, i);
    hide Distinct, WellFormed, Without, Filter, Passing;
    var k, done, rest := d.keys[i], Filter(d.keys[..i], Passing(d, p)), d.keys[i + 1..];
    FilterSnoc(d.keys[..i], k, Passing(d, p));
    Associate(done, [k], rest);
    if !Passing(d, p)(k) {
      WithoutMiddle(done, k, rest);
    }
  }

  /** Equal keys and values taken from d make the same dictionary. */
  lemma SameKeys<K(!new), V>(d: Dict<K, V>, r: Dict<K, V>, q: Dict<K, V>)
    requires r.keys == q.keys
    requires forall k :: k in r.vals ==> k in d.vals && r.vals[k] == d.vals[k]
    requires forall k :: k in q.vals ==> k in d.vals && q.vals[k] == d.vals[k]
    ensures r == q
  {
    assert forall k :: k in r.vals <==> k in r.keys;
    assert forall k :: k in q.vals <==> k in q.keys;
    assert r.vals == q.vals;
  }

  /** d with the failing keys among the first i deleted. */
  ghost predicate DeletedUpTo<K(!new), V>(d: Dict<K, V>, p: (K, V) -> bool, i: nat, r: Dict<K, V>)
    requires i <= |d.keys|
  {
    && r.keys == Filter(d.keys[..i], Passing(d, p)) + d.keys[i..]
    && (forall k :: k in r.vals ==> k in d.vals && r.vals[k] == d.vals[k])
  }

  lemma DeletedNone<K(!new), V>(d: Dict<K, V>, p: (K, V) -> bool)
    ensures DeletedUpTo(d, p, 0, d)
  {
    assert d.keys[..0] == [] && d.keys[0..] == d.keys;
  }

  lemma DeleteNext<K(!new), V>(d: Dict<K, V>, p: (K, V) -> bool, i: nat, r: Dict<K, V>)
    requires i < |d.keys| && DeletedUpTo(d, p, i, r)
    ensures d.keys[i] in d.vals
    ensures DeletedUpTo(d, p, i + 1, if p(d.keys[i], d.vals[d.keys[i]]) then r else Remove(r, d.keys[i]))
  {
    hide Filter, Without;
    var k := d.keys[i];
    assert k in d.keys;
    KeysStep(d, p, i, r.keys);
  }

  lemma DeletedAll<K(!new), V>(d: Dict<K, V>, p: (K, V) -> bool, r: Dict<K, V>)
    requires DeletedUpTo(d, p, |d.keys|, r)
    ensures r == Keep(d, p)
  {
    assert d.keys[..|d.keys|] == d.keys && d.keys[|d.keys|..] == [];
    SameKeys(d, r, Keep(d, p));
  }

  /** The loop the program uses to purge: over a copy of the keys, deleting as it goes. */
  method DeleteFailing<K(==, !new), V>(d: Dict<K, V>, p: (K, V) -> bool) returns (r: Dict<K, V>)
    ensures r == Keep(d, p)
  {
    hide DeletedUpTo, Keep, Remove, WellFormed;
    r := d;
    DeletedNone(d, p);
    for i := 0 to |d.keys|
      invariant DeletedUpTo(d, p, i, r)
    {
      DeleteNext(d, p, i, r);
      if !p(d.keys[i], d.vals[d.keys[i]]) {
        r := Remove(r, d.keys[i]);
      }
    }
    DeletedAll(d, p, r);
  }

  lemma {:induction false} WithoutFilter<K(!new)>(s: seq<K>, p: K -> bool, k: K, q: K -> bool)
    requires forall x :: x in s ==> q(x) == (p(x) && x != k)
    ensures Without(Filter(s, p), k) == Filter(s, q)
  {
    if s != [] {
      WithoutFilter(s[1..], p, k, q);
      if p(s[0]) {
        assert ([s[0]] + Filter(s[1..], p))[1..] == Filter(s[1..], p);
      }
    }
  }

  /** Deleting one key of a filtered dictionary is filtering it out too. */
  lemma RemoveKept<K(!new), V>(d: Dict<K, V>, p: (K, V) -> bool, k: K, q: (K, V) -> bool)
    requires forall x :: x in d.vals ==> q(x, d.vals[x]) == (p(x, d.vals[x]) && x != k)
    ensures Remove(Keep(d, p), k) == Keep(d, q)
  {
    WithoutFilter(d.keys, Passing(d, p), k, Passing(d, q));
    SameKeys(d, Remove(Keep(d, p), k), Keep(d, q));
  }

  /** The values in key order. */
  function Values<K(==, !new), V>(d: Dict<K, V>): (r: seq<V>)
    ensures |r| == |d.keys|
    ensures forall i :: 0 <= i < |r| ==> d.keys[i] in d.vals && r[i] == d.vals[d.keys[i]]
  {
    assert forall k :: k in d.keys ==> k in d.vals;
    seq(|d.keys|, i requires 0 <= i < |d.keys| => d.vals[d.keys[i]])
  }

  lemma ValuesPutNew<K(!new), V>(d: Dict<K, V>, k: K, v: V)
    requires k !in d.vals
    ensures Values(Put(d, k, v)) == Values(d) + [v]
  {
  }

  lemma ValuesIn<K(!new), V>(d: Dict<K, V>, v: V)
    ensures v in Values(d) <==> exists k :: k in d.vals && d.vals[k] == v
  {
    if exists k :: k in d.vals && d.vals[k] == v {
      var k :| k in d.vals && d.vals[k] == v;
      assert k in d.keys;
      var i :| 0 <= i < |d.keys| && d.keys[i] == k;
      assert Values(d)[i] == v;
    }
  }
}
