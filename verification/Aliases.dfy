/** The alias map between RNS identity hashes and message destination hashes. */
module Aliases {

  /** A normalised hash: lower case, no colons; "" when absent. */
  type Hash = string

  const UNKNOWN := "unknown"
  const HUB_GROUP_PEER := "__hub_group__"

  predicate IsHubPeer(h: Hash) {
    h == HUB_GROUP_PEER
  }

  predicate Unresolved(h: Hash) {
    h == "" || h == UNKNOWN
  }

  /** destOf is identity_to_dest, identOf is dest_to_identity. */
  datatype AliasMap = AliasMap(destOf: map<Hash, Hash>, identOf: map<Hash, Hash>)

  const NO_ALIASES := AliasMap(map[], map[])

  function Register(m: AliasMap, dest: Hash, ident: Hash): AliasMap {
    if dest == "" || ident == "" || ident == dest then m
    else AliasMap(m.destOf[ident := dest], m.identOf[dest := ident])
  }

  function DestFor(m: AliasMap, h: Hash): Hash {
    if h == "" then ""
    else if h in m.identOf then h
    else if h in m.destOf && m.destOf[h] != "" then m.destOf[h]
    else h
  }

  predicate NamesOther(m: AliasMap, key: Hash, other: Hash) {
    key in m.destOf && DestFor(m, other) != "" && m.destOf[key] == DestFor(m, other)
  }

  /** hashes_equivalent: same destination, or one is an identity filed under the other's destination. */
  predicate Equivalent(m: AliasMap, a: Hash, b: Hash) {
    && DestFor(m, a) != ""
    && DestFor(m, b) != ""
    && (|| DestFor(m, a) == DestFor(m, b)
        || NamesOther(m, a, b)
        || NamesOther(m, b, if b == a then b else a))
  }

  predicate SameDest(m: AliasMap, a: Hash, b: Hash) {
    DestFor(m, a) != "" && DestFor(m, a) == DestFor(m, b)
  }

  // ----- runs of registrations -----

  datatype AliasOp = Learn(dest: Hash, ident: Hash) | Forget

  function Apply(m: AliasMap, op: AliasOp): AliasMap {
    match op
    case Learn(dest, ident) => Register(m, dest, ident)
    case Forget => NO_ALIASES
  }

  function RunAliases(m: AliasMap, ops: seq<AliasOp>): AliasMap
    decreases |ops|
  {
    if ops == [] then m else RunAliases(Apply(m, ops[0]), ops[1..])
  }

  /** What every registration keeps: each recorded destination is itself a known destination. */
  ghost predicate Consistent(m: AliasMap) {
    && (forall i :: i in m.destOf ==> i != "" && m.destOf[i] != "" && m.destOf[i] != i)
    && (forall i :: i in m.destOf ==> m.destOf[i] in m.identOf)
  }

  ghost predicate NoDoubleRole(m: AliasMap) {
    forall h :: h in m.destOf ==> h !in m.identOf
  }

  lemma {:induction false} RunConsistent(m: AliasMap, ops: seq<AliasOp>)
    requires Consistent(m)
    ensures Consistent(RunAliases(m, ops))
    decreases |ops|
  {
    if ops != [] {
      RunConsistent(Apply(m, ops[0]), ops[1..]);
    }
  }

  /** In every reachable state DestFor is idempotent and Equivalent is symmetric and reflexive. */
  lemma ReachableLaws(ops: seq<AliasOp>, a: Hash, b: Hash)
    ensures var m := RunAliases(NO_ALIASES, ops);
            && DestFor(m, DestFor(m, a)) == DestFor(m, a)
            && (Equivalent(m, a, b) <==> Equivalent(m, b, a))
            && (Equivalent(m, a, a) <==> a != "")
  {
    RunConsistent(NO_ALIASES, ops);
  }

  /** Equivalence is the kernel of DestFor exactly when no hash is both an identity and a destination. */
  lemma EquivalentIsKernelIff(m: AliasMap)
    requires Consistent(m)
    ensures (forall a, b :: Equivalent(m, a, b) <==> SameDest(m, a, b)) <==> NoDoubleRole(m)
  {
    if !NoDoubleRole(m) {
      var h :| h in m.destOf && h in m.identOf;
      assert Equivalent(m, h, m.destOf[h]) && !SameDest(m, h, m.destOf[h]);
    }
  }

  /** Without double roles it is an equivalence relation on the non-empty hashes. */
  lemma EquivalentTransitive(m: AliasMap, a: Hash, b: Hash, c: Hash)
    requires Consistent(m) && NoDoubleRole(m)
    requires Equivalent(m, a, b) && Equivalent(m, b, c)
    ensures Equivalent(m, a, c)
  {
    EquivalentIsKernelIff(m);
    assert SameDest(m, a, b) && SameDest(m, b, c);
  }

  ghost predicate Transitive(m: AliasMap) {
    forall a, b, c :: Equivalent(m, a, b) && Equivalent(m, b, c) ==> Equivalent(m, a, c)
  }

  /** A hash registered both as an identity and as a destination. */
  predicate Double(m: AliasMap, h: Hash) {
    h in m.destOf && h in m.identOf
  }

  /** No plain identity resolves to h. */
  predicate Alone(m: AliasMap, h: Hash) {
    forall x :: x in m.destOf && m.destOf[x] == h ==> x in m.identOf
  }

  /** When a double role does no harm: nobody else points where h does, and h brings no identity of its own along;
      two hashes that point at each other may have identities on one side, three may chase each other alone. */
  predicate Harmless(m: AliasMap, h: Hash)
    requires h in m.destOf
  {
    var d := m.destOf[h];
    && (forall k :: k in m.destOf && k in m.identOf && m.destOf[k] == d ==> k == h)
    && if !Double(m, d) then Alone(m, h)
       else if m.destOf[d] == h then Alone(m, h) || Alone(m, d)
       else Alone(m, h) && Double(m, m.destOf[d]) && m.destOf[m.destOf[d]] == h
  }

  predicate RolesHarmless(m: AliasMap) {
    forall h :: h in m.destOf && h in m.identOf ==> Harmless(m, h)
  }

  /** What equivalence comes to: one destination, or a double role whose own target is the other's destination. */
  lemma EquivalentMeaning(m: AliasMap, a: Hash, b: Hash)
    requires Consistent(m)
    ensures Equivalent(m, a, b) <==>
              && a != "" && b != ""
              && (|| DestFor(m, a) == DestFor(m, b)
                  || (Double(m, a) && m.destOf[a] == DestFor(m, b))
                  || (Double(m, b) && m.destOf[b] == DestFor(m, a)))
  {
  }

  /** Equivalence is transitive exactly when every double role is harmless. */
  lemma TransitiveIff(m: AliasMap)
    requires Consistent(m)
    ensures Transitive(m) <==> RolesHarmless(m)
  {
    if Transitive(m) {
      forall h | h in m.destOf && h in m.identOf
        ensures Harmless(m, h)
      {
        TransitiveNeeds(m, h);
      }
    }
    if RolesHarmless(m) {
      forall a, b, c | Equivalent(m, a, b) && Equivalent(m, b, c)
        ensures Equivalent(m, a, c)
      {
        HarmlessSuffices(m, a, b, c);
      }
    }
  }

  lemma TransitiveNeeds(m: AliasMap, h: Hash)
    requires Consistent(m) && Transitive(m) && h in m.destOf && h in m.identOf
    ensures Harmless(m, h)
  {
    hide Equivalent, DestFor;
    var d := m.destOf[h];
    DoubleLinks(m, h);
    forall k | k in m.destOf && k in m.identOf && m.destOf[k] == d
      ensures k == h
    {
      DoubleLinks(m, k);
      EquivalentSymmetric(m, k, d);
      assert Equivalent(m, h, k);
      DoublesMeet(m, h, k);
    }
    forall x | x in m.destOf && m.destOf[x] == h && x !in m.identOf
      ensures d in m.destOf && d in m.identOf && m.destOf[d] == h
    {
      PlainLinks(m, x);
      assert Equivalent(m, x, d);
      PlainMeets(m, x, d);
    }
    if Double(m, d) {
      DoubleLinks(m, d);
      assert Equivalent(m, h, m.destOf[d]);
      ChainCloses(m, h, d);
      if m.destOf[d] == h && !Alone(m, h) && !Alone(m, d) {
        var x :| x in m.destOf && m.destOf[x] == h && x !in m.identOf;
        var y :| y in m.destOf && m.destOf[y] == d && y !in m.identOf;
        PlainLinks(m, x);
        PlainLinks(m, y);
        EquivalentSymmetric(m, y, d);
        assert Equivalent(m, x, d) && Equivalent(m, x, y);
        PlainsApart(m, x, y);
      }
    }
  }

  /** A double role is equivalent to the destination it points to. */
  lemma DoubleLinks(m: AliasMap, h: Hash)
    requires Consistent(m) && h in m.destOf
    ensures Equivalent(m, h, m.destOf[h])
  {
  }

  lemma PlainLinks(m: AliasMap, x: Hash)
    requires Consistent(m) && x in m.destOf && x !in m.identOf
    ensures Equivalent(m, x, m.destOf[x])
  {
  }

  lemma EquivalentSymmetric(m: AliasMap, a: Hash, b: Hash)
    ensures Equivalent(m, a, b) == Equivalent(m, b, a)
  {
  }

  lemma DoublesMeet(m: AliasMap, h: Hash, k: Hash)
    requires Consistent(m) && Double(m, h) && Double(m, k) && m.destOf[h] == m.destOf[k] && Equivalent(m, h, k)
    ensures h == k
  {
  }

  lemma PlainMeets(m: AliasMap, x: Hash, d: Hash)
    requires Consistent(m) && x in m.destOf && x !in m.identOf && d in m.identOf && d != m.destOf[x] && Equivalent(m, x, d)
    ensures d in m.destOf && m.destOf[d] == m.destOf[x]
  {
  }

  lemma ChainCloses(m: AliasMap, h: Hash, d: Hash)
    requires Consistent(m) && Double(m, h) && Double(m, d) && m.destOf[h] == d && Equivalent(m, h, m.destOf[d])
    ensures m.destOf[d] == h || (Double(m, m.destOf[d]) && m.destOf[m.destOf[d]] == h)
  {
  }

  lemma PlainsApart(m: AliasMap, x: Hash, y: Hash)
    requires Consistent(m) && x in m.destOf && x !in m.identOf && y in m.destOf && y !in m.identOf
    requires m.destOf[x] != m.destOf[y]
    ensures !Equivalent(m, x, y)
  {
  }

  lemma HarmlessSuffices(m: AliasMap, a: Hash, b: Hash, c: Hash)
    requires Consistent(m) && RolesHarmless(m) && Equivalent(m, a, b) && Equivalent(m, b, c)
    ensures Equivalent(m, a, c)
  {
    EquivalentMeaning(m, a, b);
    EquivalentMeaning(m, b, c);
    EquivalentMeaning(m, a, c);
    hide Equivalent;
  }

  /** Double roles need not break anything: two hashes that name each other. */
  lemma MutualRolesStayTransitive()
    ensures var m := RunAliases(NO_ALIASES, [Learn("d", "h"), Learn("h", "d")]);
            !NoDoubleRole(m) && Transitive(m)
  {
    var ops := [Learn("d", "h"), Learn("h", "d")];
    assert ops[1..] == [Learn("h", "d")] && ops[1..][1..] == [];
    assert RunAliases(NO_ALIASES, ops) == Register(Register(NO_ALIASES, "d", "h"), "h", "d") == MUTUAL;
    hide RunAliases;
    MutualHarmless();
    TransitiveIff(MUTUAL);
  }

  const MUTUAL := AliasMap(map["h" := "d", "d" := "h"], map["d" := "h", "h" := "d"])

  lemma MutualHarmless()
    ensures Consistent(MUTUAL) && RolesHarmless(MUTUAL) && !NoDoubleRole(MUTUAL)
  {
    var m := MUTUAL;
    assert "h" in m.destOf && "h" in m.identOf;
    assert forall h :: h in m.destOf ==> h == "h" || h == "d";
  }

  /** A destination later announced as an identity breaks transitivity. */
  lemma DoubleRoleBreaksTransitivity()
    ensures var m := RunAliases(NO_ALIASES, [Learn("a", "i"), Learn("b", "a")]);
            Equivalent(m, "i", "a") && Equivalent(m, "a", "b") && !Equivalent(m, "i", "b")
  {
    var ops := [Learn("a", "i"), Learn("b", "a")];
    assert ops[1..] == [Learn("b", "a")] && ops[1..][1..] == [];
    assert RunAliases(NO_ALIASES, ops) == Register(Register(NO_ALIASES, "a", "i"), "b", "a");
  }

  /** One registration keeps the roles apart iff neither hash already plays the other role. */
  lemma RegisterKeepsRolesIff(m: AliasMap, dest: Hash, ident: Hash)
    requires NoDoubleRole(m) && dest != "" && ident != "" && ident != dest
    ensures NoDoubleRole(Register(m, dest, ident)) <==> dest !in m.destOf && ident !in m.identOf
  {
    var r := Register(m, dest, ident);
    assert ident in r.destOf && dest in r.identOf;
    if dest in m.destOf {
      assert dest in r.destOf;
    }
  }

  /** What one registration teaches: the pair resolves to dest iff ident is not itself a destination. */
  lemma RegisterResolvesIff(m: AliasMap, dest: Hash, ident: Hash)
    requires dest != "" && ident != "" && ident != dest
    ensures var r := Register(m, dest, ident);
            && DestFor(r, dest) == dest
            && (DestFor(r, ident) == dest <==> ident !in m.identOf)
            && Equivalent(r, dest, ident)
  {
  }

  /** The mutable tables of the messaging backend. */
  class AliasTable {
    var identityToDest: map<Hash, Hash>
    var destToIdentity: map<Hash, Hash>

    function Map(): AliasMap
      reads this
    {
      AliasMap(identityToDest, destToIdentity)
    }

    constructor ()
      ensures Map() == NO_ALIASES && Consistent(Map())
    {
      identityToDest, destToIdentity := map[], map[];
    }

    method RegisterPeerMapping(dest: Hash, ident: Hash)
      requires Consistent(Map())
      modifies this
      ensures Map() == Register(old(Map()), dest, ident)
      ensures Consistent(Map())
    {
      if dest == "" {
        return;
      }
      if ident != "" && ident != dest {
        identityToDest := identityToDest[ident := dest];
        destToIdentity := destToIdentity[dest := ident];
      }
    }

    method Clear()
      modifies this
      ensures Map() == NO_ALIASES
    {
      identityToDest, destToIdentity := map[], map[];
    }

    /** The source's loop over the two arguments. */
    method HashesEquivalent(a: Hash, b: Hash) returns (same: bool)
      ensures same == Equivalent(Map(), a, b)
    {
      var da, db := DestFor(Map(), a), DestFor(Map(), b);
      if da != "" && db != "" && da == db {
        return true;
      }
      if da == "" || db == "" {
        return false;
      }
      var keys := [a, b];
      for i := 0 to 2
        invariant forall j :: 0 <= j < i ==> !NamesOther(Map(), keys[j], if keys[j] == a then b else a)
      {
        var clean := keys[i];
        if clean in identityToDest {
          var other := DestFor(Map(), if clean == a then b else a);
          if other != "" && identityToDest[clean] == other {
            return true;
          }
        }
      }
      assert keys[0] == a && keys[1] == b;
      return false;
    }
  }
}
