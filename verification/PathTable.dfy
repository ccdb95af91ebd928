/** The shared path table: keeping serial and LAN routes apart. */
module PathTable {
  import opened Collections
  import opened LinkChoice

  type Hash = string

  /** A transport interface. */
  datatype Iface = Iface(id: int, family: Family, healthy: bool)

  /** A path entry, too short to carry an interface, or with the interface in its sixth field. */
  datatype Entry = Short | Path(iface: Option<Iface>)

  type Table = Dict<Hash, Entry>

  function FamilyOf(e: Entry): Family {
    if e.Path? && e.iface.Some? then e.iface.value.family else NoFamily
  }

  predicate IsHex(c: char) {
    '0' <= c <= '9' || 'a' <= c <= 'f'
  }

  /** A hash the table can be asked about. */
  predicate IsDest(h: Hash) {
    |h| == 32 && forall i :: 0 <= i < 32 ==> IsHex(h[i])
  }

  // ----- prune_cross_zone_paths -----

  predicate InZone(serialPeers: set<Hash>, k: Hash, e: Entry) {
    || e.Short?
    || (if k in serialPeers then !IsLanFamily(FamilyOf(e)) else !(FamilyOf(e) == Serial && serialPeers != {}))
  }

  function PruneCrossZone(t: Table, serialPeers: set<Hash>): Table {
    Keep(t, (k: Hash, e: Entry) => InZone(serialPeers, k, e))
  }

  /** Serial peers are not routed over LAN, nor anyone else over serial. */
  ghost predicate Separated(t: Table, serialPeers: set<Hash>) {
    forall k :: k in t.vals ==>
      if k in serialPeers then !IsLanFamily(FamilyOf(t.vals[k])) else FamilyOf(t.vals[k]) != Serial
  }

  /** Pruning separates the zones, a second prune removes nothing, and no entry already in its zone is lost. */
  lemma PruneSeparates(t: Table, serialPeers: set<Hash>)
    requires serialPeers != {}
    ensures Separated(PruneCrossZone(t, serialPeers), serialPeers)
    ensures PruneCrossZone(PruneCrossZone(t, serialPeers), serialPeers) == PruneCrossZone(t, serialPeers)
    ensures Separated(t, serialPeers) <==> PruneCrossZone(t, serialPeers) == t
  {
    KeepAll(PruneCrossZone(t, serialPeers), (k: Hash, e: Entry) => InZone(serialPeers, k, e));
    if Separated(t, serialPeers) {
      KeepAll(t, (k: Hash, e: Entry) => InZone(serialPeers, k, e));
    }
  }

  /** The interface a path goes over, None when the entry names none. */
  function Over(e: Entry): Option<Iface> {
    match e
    case Short => None
    case Path(i) => i
  }

  /** A prune takes out a serial peer's path over LAN and, once there are serial peers, anyone else's over serial; every
      other entry stays as it is. */
  lemma PruneIff(t: Table, serialPeers: set<Hash>, k: Hash)
    requires k in t.vals
    ensures var r := PruneCrossZone(t, serialPeers);
            && (k !in r.vals <==>
                  && Over(t.vals[k]).Some?
                  && var f := Over(t.vals[k]).value.family;
                     if k in serialPeers then f in {Udp, Lan, Tcp} else f == Serial && serialPeers != {})
            && (k in r.vals ==> r.vals[k] == t.vals[k])
  {
  }

  // ----- one peer -----

  function PruneLan(t: Table, h: Hash): Table {
    if IsDest(h) && h in t.vals && IsLanFamily(FamilyOf(t.vals[h])) then Remove(t, h) else t
  }

  function PathIface(t: Table, h: Hash): Option<Iface> {
    if IsDest(h) && h in t.vals && t.vals[h].Path? then t.vals[h].iface else None
  }

  function ClearPath(t: Table, h: Hash): Table {
    if IsDest(h) then Remove(t, h) else t
  }

  /** scrub_peer_path. */
  function Scrub(t: Table, h: Hash): Table {
    var i := PathIface(t, h);
    if i.Some? && !i.value.healthy then ClearPath(t, h) else t
  }

  /** What ensure_serial_path_pinned does to the table. */
  function EnsureSerial(t: Table, h: Hash): Table {
    if |h| != 32 then t
    else
      var pruned := PruneLan(t, h);
      var i := PathIface(pruned, h);
      Scrub(if i.Some? && i.value.family != Serial then ClearPath(pruned, h) else pruned, h)
  }

  /** What a destination hash is: 32 hexadecimal digits, in lower case. */
  predicate Names(h: Hash) {
    |h| == 32 && forall c :: c in h ==> c in "0123456789abcdef"
  }

  lemma DestIff(h: Hash)
    ensures IsDest(h) <==> Names(h)
  {
    if |h| == 32 {
      forall c: char
        ensures IsHex(c) <==> c in "0123456789abcdef"
      {
        HexIff(c);
      }
      assert Names(h) ==> forall i :: 0 <= i < 32 ==> h[i] in h;
    }
  }

  lemma HexIff(c: char)
    ensures IsHex(c) <==> c in "0123456789abcdef"
  {
    var digits := "0123456789abcdef";
    assert digits[0] == '0' && digits[1] == '1' && digits[2] == '2' && digits[3] == '3' && digits[4] == '4' && digits[5] == '5';
    assert digits[6] == '6' && digits[7] == '7' && digits[8] == '8' && digits[9] == '9' && digits[10] == 'a' && digits[11] == 'b';
    assert digits[12] == 'c' && digits[13] == 'd' && digits[14] == 'e' && digits[15] == 'f';
  }

  /** Every other entry is unchanged. The peer's own stays exactly when it was on a healthy serial interface or names no
      interface; a hash that is no destination changes nothing. */
  lemma EnsureSerialResult(t: Table, h: Hash)
    ensures var r := EnsureSerial(t, h);
            && (forall k :: k != h ==> Get(r, k) == Get(t, k))
            && (h in r.vals ==> Get(r, h) == Get(t, h))
            && (h in r.vals <==>
                  && h in t.vals
                  && (|| !Names(h) || Over(t.vals[h]).None?
                      || (Over(t.vals[h]).value.family == Serial && Over(t.vals[h]).value.healthy)))
  {
    DestIff(h);
  }

  /** Removing paths, in any number, never mixes the zones again. */
  lemma RemovalsKeepSeparation(t: Table, r: Table, serialPeers: set<Hash>)
    requires Separated(t, serialPeers) && forall k :: k in r.vals ==> Get(r, k) == Get(t, k)
    ensures Separated(r, serialPeers)
  {
    forall k | k in r.vals
      ensures k in t.vals && t.vals[k] == r.vals[k]
    {
      assert Get(r, k) == Get(t, k);
    }
  }

  // ----- isolation of path requests -----

  /** families_compatible. */
  predicate Compatible(source: Family, target: Family) {
    !(source == Serial && IsLanFamily(target)) && !(target == Serial && IsLanFamily(source))
  }

  predicate Isolates(f: Family) {
    f == Serial || IsLanFamily(f)
  }

  /** _filter_interfaces. */
  function FilterInterfaces(isolated: bool, attached: Option<Iface>, all: seq<Iface>): seq<Iface> {
    if !isolated || attached.None? || !Isolates(attached.value.family) then all
    else Filter(all, (i: Iface) => i != attached.value && Compatible(attached.value.family, i.family))
  }

  /** The two families a request must not cross between. */
  predicate Crosses(f: Family, g: Family) {
    || (f == Serial && g in {Udp, Lan, Tcp})
    || (g == Serial && f in {Udp, Lan, Tcp})
  }

  /** With isolation on, a request from a serial or LAN interface sees exactly the other interfaces on its side, in order. */
  lemma RequestSeesIff(attached: Iface, all: seq<Iface>)
    requires attached.family in {Serial, Udp, Lan, Tcp}
    ensures FilterInterfaces(true, Some(attached), all)
         == Filter(all, (i: Iface) => i != attached && !Crosses(attached.family, i.family))
  {
    FilterSame(all, (i: Iface) => i != attached && Compatible(attached.family, i.family),
               (i: Iface) => i != attached && !Crosses(attached.family, i.family));
  }

  /** Without isolation, without a source, or from any other interface a request sees them all. */
  lemma RequestSeesAll(isolated: bool, attached: Option<Iface>, all: seq<Iface>)
    requires !isolated || attached.None? || attached.value.family !in {Serial, Udp, Lan, Tcp}
    ensures FilterInterfaces(isolated, attached, all) == all
  {
  }

  class Transport {
    var pathTable: Table
    var interfaces: seq<Iface>
    var serialPins: set<Hash>

    constructor (t: Table, all: seq<Iface>)
      ensures pathTable == t && interfaces == all && serialPins == {}
    {
      pathTable, interfaces, serialPins := t, all, {};
    }

    method PruneCrossZonePaths(serialPeers: set<Hash>) returns (removed: int)
      modifies `pathTable
      ensures pathTable == PruneCrossZone(old(pathTable), serialPeers - {""})
      ensures serialPeers - {""} != {} ==> Separated(pathTable, serialPeers - {""})
      ensures removed == |old(pathTable).keys| - |pathTable.keys|
    {
      hide InZone;
      var peers := serialPeers - {""};
      if peers != {} {
        PruneSeparates(pathTable, peers);
      }
      var before := |pathTable.keys|;
      var test := (k: Hash, e: Entry) => InZone(peers, k, e);
      KeepSame(pathTable, test, (k: Hash, e: Entry) => InZone(peers, k, e));
      pathTable := DeleteFailing(pathTable, test);
      removed := before - |pathTable.keys|;
    }

    /** ensure_serial_path_pinned: whether the peer is on a healthy serial path, and whether a path request went out. */
    method EnsureSerialPathPinned(h: Hash, request: bool) returns (onSerial: bool, requested: bool)
      modifies `pathTable, `serialPins
      ensures pathTable == EnsureSerial(old(pathTable), h)
      ensures serialPins == if |h| == 32 then old(serialPins) + {h} else old(serialPins)
      ensures onSerial <==>
                && Names(h) && h in pathTable.vals && Over(pathTable.vals[h]).Some?
                && Over(pathTable.vals[h]).value.family == Serial && Over(pathTable.vals[h]).value.healthy
      ensures requested <==> |h| == 32 && request && !onSerial
    {
      DestIff(h);
      if |h| != 32 {
        return false, false;
      }
      serialPins := serialPins + {h};
      pathTable := PruneLan(pathTable, h);
      var i := PathIface(pathTable, h);
      if i.Some? && i.value.family != Serial {
        pathTable := ClearPath(pathTable, h);
      }
      pathTable := Scrub(pathTable, h);
      var j := PathIface(pathTable, h);
      onSerial := j.Some? && j.value.healthy && j.value.family == Serial;
      requested := request && !onSerial;
    }

    /** The patched path_request: seen is the interface list the original handler runs with. */
    method PathRequest(h: Hash, isolated: bool, attached: Option<Iface>) returns (seen: seq<Iface>)
      modifies `pathTable, `interfaces
      ensures interfaces == old(interfaces) && seen == FilterInterfaces(isolated, attached, interfaces)
      ensures forall k :: k != h ==> Get(pathTable, k) == Get(old(pathTable), k)
      ensures h in pathTable.vals <==>
                h in old(pathTable).vals && !(isolated && attached.Some? && Over(old(pathTable).vals[h]).Some?
                                             && Crosses(attached.value.family, Over(old(pathTable).vals[h]).value.family))
      ensures h in pathTable.vals ==> pathTable.vals[h] == old(pathTable).vals[h]
    {
      if !isolated || attached.None? {
        return interfaces;
      }
      var source := attached.value.family;
      if Isolates(source) && h in pathTable.vals && pathTable.vals[h].Path? {
        if !Compatible(source, FamilyOf(pathTable.vals[h])) {
          pathTable := Remove(pathTable, h);
        }
      }
      var original := interfaces;
      interfaces := FilterInterfaces(isolated, attached, original);
      seen := interfaces;
      interfaces := original;
    }
  }
}
