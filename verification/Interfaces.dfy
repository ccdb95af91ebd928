/** RNS interface lists: completing entries from presets, deduplicating them, and the sections rendered from them. */
module Interfaces {
  import opened Collections

  datatype Preset = UdpLan | TcpLan | TcpClient | TcpServer | SerialPort | OtherPreset(key: string)

  /** The preset field of an entry: absent, present but empty, or set. */
  datatype PresetField = Missing | Empty | Given(preset: Preset)

  datatype IfaceType = UdpType | TcpServerType | TcpClientType | SerialType | OtherType(name: string)

  /** A settings entry as stored; NotADict is any other JSON value. rest holds the remaining fields. */
  datatype Item =
    | NotADict
    | Item(id: Option<string>, preset: PresetField, name: Option<string>, itype: Option<IfaceType>,
           enabled: Option<bool>, userDisabled: bool, port: Option<string>, rest: map<string, string>)

  /** A completed entry. port "" is no port. */
  datatype Iface = Iface(
    id: string, preset: PresetField, name: string, itype: IfaceType,
    enabled: bool, userDisabled: bool, port: string, rest: map<string, string>)

  // ----- presets -----

  function EffectivePreset(f: PresetField): Preset {
    if f.Given? then f.preset else UdpLan
  }

  function PresetType(p: Preset): Option<IfaceType> {
    match p
    case UdpLan => Some(UdpType)
    case TcpLan => Some(TcpServerType)
    case TcpClient => Some(TcpClientType)
    case TcpServer => Some(TcpServerType)
    case SerialPort => Some(SerialType)
    case OtherPreset(_) => None
  }

  function Label(p: Preset): Option<string> {
    match p
    case UdpLan => Some("UDP LAN")
    case TcpLan => Some("TCP LAN")
    case TcpClient => Some("TCP Client")
    case TcpServer => Some("TCP Hub Server")
    case SerialPort => Some("Serial")
    case OtherPreset(_) => None
  }

  function TypeName(t: IfaceType): string {
    match t
    case UdpType => "UDPInterface"
    case TcpServerType => "TCPServerInterface"
    case TcpClientType => "TCPClientInterface"
    case SerialType => "SerialInterface"
    case OtherType(n) => n
  }

  function DefaultEnabled(p: Preset): bool {
    p != SerialPort
  }

  /** The remaining default fields of a preset; an unknown preset takes UDP LAN's. */
  function DefaultRest(p: Preset): map<string, string> {
    match p
    case TcpLan | TcpServer => map["listen_ip" := "0.0.0.0", "listen_port" := "4242", "ifac_size" := "16"]
    case TcpClient => map["target_host" := "127.0.0.1", "target_port" := "4242", "ifac_size" := "16"]
    case SerialPort => map["speed" := "57600", "ifac_size" := "16"]
    case _ => map["listen_ip" := "0.0.0.0", "listen_port" := "4242", "forward_ip" := "255.255.255.255",
                  "forward_port" := "4242", "ifac_size" := "16"]
  }

  function Or<T>(o: Option<T>, default_: T): T {
    if o.Some? then o.value else default_
  }

  /** The body of normalize_interface_list's first loop, before the serial check. */
  function Complete(i: Item, newId: string): Iface
    requires i.Item?
  {
    var p := EffectivePreset(i.preset);
    var itype := Or(PresetType(p), Or(i.itype, UdpType));
    Iface(Or(i.id, newId),
          if i.preset == Missing then Given(UdpLan) else i.preset,
          Or(i.name, Or(Label(p), if i.itype.Some? then TypeName(i.itype.value) else "Interface")),
          itype, Or(i.enabled, DefaultEnabled(p)), i.userDisabled, Or(i.port, ""), DefaultRest(p) + i.rest)
  }

  predicate IsSerialEntry(e: Iface) {
    e.preset == Given(SerialPort) || e.itype == SerialType
  }

  /** _sync_serial_enabled; openPorts are the ports this process can open. */
  function SyncSerial(e: Iface, openPorts: set<string>): Iface {
    if !IsSerialEntry(e) then e
    else e.(enabled := !e.userDisabled && e.port != "" && e.port in openPorts)
  }

  function AsItem(e: Iface): Item {
    Item(Some(e.id), e.preset, Some(e.name), Some(e.itype), Some(e.enabled), e.userDisabled, Some(e.port), e.rest)
  }

  function AsItems(es: seq<Iface>): seq<Item> {
    seq(|es|, i requires 0 <= i < |es| => AsItem(es[i]))
  }

  // ----- slots: what may occur once -----

  datatype Slot = SerialSlot(port: string) | UdpSlot | TcpSlot

  function SlotOf(e: Iface): Option<Slot> {
    if e.itype == SerialType then (if e.port != "" then Some(SerialSlot(e.port)) else None)
    else if e.itype == UdpType || e.preset == Given(UdpLan) then Some(UdpSlot)
    else if e.preset == Given(TcpLan) || (e.itype == TcpServerType && e.preset != Given(TcpServer)) then Some(TcpSlot)
    else None
  }

  predicate Taken(es: seq<Iface>, s: Option<Slot>) {
    s.Some? && exists i :: 0 <= i < |es| && SlotOf(es[i]) == s
  }

  /** Keeps the first entry of every slot. */
  function FirstPerSlot(es: seq<Iface>): seq<Iface> {
    if es == [] then []
    else
      var kept := FirstPerSlot(es[..|es| - 1]);
      if Taken(kept, SlotOf(es[|es| - 1])) then kept else kept + [es[|es| - 1]]
  }

  ghost predicate OnePerSlot(es: seq<Iface>) {
    forall i, j :: 0 <= i < j < |es| && SlotOf(es[i]).Some? ==> SlotOf(es[i]) != SlotOf(es[j])
  }

  // ----- normalisation -----

  function CompleteAll(items: seq<Item>, newIds: seq<string>, openPorts: set<string>): seq<Iface>
    requires |newIds| == |items|
  {
    if items == [] then []
    else
      var n := |items| - 1;
      var before := CompleteAll(items[..n], newIds[..n], openPorts);
      if items[n].NotADict? then before else before + [SyncSerial(Complete(items[n], newIds[n]), openPorts)]
  }

  /** default_interface_list. */
  function DefaultList(android: bool): seq<Iface> {
    if android then [Iface("tcp-lan", Given(TcpLan), "TCP LAN", TcpServerType, true, false, "", DefaultRest(TcpLan))]
    else [Iface("udp-lan", Given(UdpLan), "UDP Interface", UdpType, true, false, "", DefaultRest(UdpLan))]
  }

  /** normalize_interface_list. */
  function NormalizeList(items: seq<Item>, newIds: seq<string>, openPorts: set<string>, android: bool): seq<Iface>
    requires |newIds| == |items|
  {
    var all := CompleteAll(items, newIds, openPorts);
    if all == [] then DefaultList(android) else FirstPerSlot(all)
  }

  /** A completed entry that completing again leaves alone. */
  predicate Settled(e: Iface, openPorts: set<string>) {
    var p := EffectivePreset(e.preset);
    && e.preset != Missing
    && e.itype == Or(PresetType(p), e.itype)
    && SyncSerial(e, openPorts) == e
    && DefaultRest(p) + e.rest == e.rest
  }

  lemma CompletedSettled(i: Item, newId: string, openPorts: set<string>)
    requires i.Item?
    ensures Settled(SyncSerial(Complete(i, newId), openPorts), openPorts)
  {
    var p := EffectivePreset(i.preset);
    assert DefaultRest(p) + (DefaultRest(p) + i.rest) == DefaultRest(p) + i.rest;
  }

  lemma SettledFixed(e: Iface, newId: string, openPorts: set<string>)
    requires Settled(e, openPorts)
    ensures SyncSerial(Complete(AsItem(e), newId), openPorts) == e
  {
  }

  ghost predicate AllSettled(es: seq<Iface>, openPorts: set<string>) {
    forall i :: 0 <= i < |es| ==> Settled(es[i], openPorts)
  }

  lemma {:induction false} CompleteAllSettled(items: seq<Item>, newIds: seq<string>, openPorts: set<string>)
    requires |newIds| == |items|
    ensures AllSettled(CompleteAll(items, newIds, openPorts), openPorts)
    decreases |items|
  {
    hide Settled, SyncSerial, Complete;
    if items != [] {
      var n := |items| - 1;
      CompleteAllSettled(items[..n], newIds[..n], openPorts);
      if items[n].Item? {
        CompletedSettled(items[n], newIds[n], openPorts);
      }
    }
  }

  lemma {:induction false} CompleteAllFixed(es: seq<Iface>, newIds: seq<string>, openPorts: set<string>)
    requires AllSettled(es, openPorts) && |newIds| == |es|
    ensures CompleteAll(AsItems(es), newIds, openPorts) == es
    decreases |es|
  {
    hide Settled, SyncSerial, Complete, AsItem;
    if es != [] {
      var n := |es| - 1;
      CompleteAllFixed(es[..n], newIds[..n], openPorts);
      assert AsItems(es)[..n] == AsItems(es[..n]);
      SettledFixed(es[n], newIds[n], openPorts);
      assert es == es[..n] + [es[n]];
      AsItemIsDict(es[n]);
    }
  }

  lemma AsItemIsDict(e: Iface)
    ensures AsItem(e).Item?
  {
  }

  /** One entry per slot, every slot of the input still there, entries taken from it in order. */
  lemma {:induction false} FirstPerSlotUnique(es: seq<Iface>)
    ensures OnePerSlot(FirstPerSlot(es))
    ensures forall e :: e in FirstPerSlot(es) ==> e in es
    ensures forall e :: e in es ==> SlotOf(e) == None || Taken(FirstPerSlot(es), SlotOf(e))
    ensures forall e :: e in es && SlotOf(e) == None ==> e in FirstPerSlot(es)
    ensures es != [] ==> FirstPerSlot(es) != []
    decreases |es|
  {
    hide SlotOf;
    if es != [] {
      var n := |es| - 1;
      FirstPerSlotUnique(es[..n]);
      assert es == es[..n] + [es[n]];
      var kept := FirstPerSlot(es[..n]);
      if !Taken(kept, SlotOf(es[n])) {
        assert (kept + [es[n]])[|kept|] == es[n];
        forall s | Taken(kept, s)
          ensures Taken(kept + [es[n]], s)
        {
          var i :| 0 <= i < |kept| && SlotOf(kept[i]) == s;
          assert (kept + [es[n]])[i] == kept[i];
        }
      }
    }
  }

  lemma {:induction false} FirstPerSlotFixed(es: seq<Iface>)
    requires OnePerSlot(es)
    ensures FirstPerSlot(es) == es
    decreases |es|
  {
    hide SlotOf;
    if es != [] {
      var n := |es| - 1;
      FirstPerSlotFixed(es[..n]);
      assert !Taken(es[..n], SlotOf(es[n]));
      assert es == es[..n] + [es[n]];
    }
  }

  lemma DefaultsSettled(android: bool, openPorts: set<string>)
    ensures AllSettled(DefaultList(android), openPorts) && OnePerSlot(DefaultList(android))
  {
  }

  /** The normal form: never empty, at most one UDP entry, one TCP LAN entry, and each serial port once. */
  lemma NormalForm(items: seq<Item>, newIds: seq<string>, openPorts: set<string>, android: bool)
    requires |newIds| == |items|
    ensures var r := NormalizeList(items, newIds, openPorts, android);
            r != [] && OnePerSlot(r) && AllSettled(r, openPorts)
  {
    hide Settled;
    DefaultsSettled(android, openPorts);
    var all := CompleteAll(items, newIds, openPorts);
    FirstPerSlotUnique(all);
    CompleteAllSettled(items, newIds, openPorts);
    var r := FirstPerSlot(all);
    forall i | 0 <= i < |r|
      ensures Settled(r[i], openPorts)
    {
      assert r[i] in all;
    }
  }

  /** Normalising a list in normal form changes nothing, whatever fresh ids are on offer. */
  lemma NormalFixed(es: seq<Iface>, newIds: seq<string>, openPorts: set<string>, android: bool)
    requires |newIds| == |es| && es != [] && OnePerSlot(es) && AllSettled(es, openPorts)
    ensures NormalizeList(AsItems(es), newIds, openPorts, android) == es
  {
    hide Settled;
    CompleteAllFixed(es, newIds, openPorts);
    FirstPerSlotFixed(es);
  }

  /** normalize_interface_list is idempotent for a fixed port status. */
  lemma NormalizeIdempotent(items: seq<Item>, newIds: seq<string>, again: seq<string>, openPorts: set<string>, android: bool)
    requires |newIds| == |items|
    requires |again| == |NormalizeList(items, newIds, openPorts, android)|
    ensures var r := NormalizeList(items, newIds, openPorts, android);
            NormalizeList(AsItems(r), again, openPorts, android) == r
  {
    hide Settled, NormalizeList;
    NormalForm(items, newIds, openPorts, android);
    NormalFixed(NormalizeList(items, newIds, openPorts, android), again, openPorts, android);
  }

  // ----- choosing the primary LAN transport -----

  predicate IsLanTransport(e: Iface) {
    SlotOf(e) == Some(UdpSlot) || SlotOf(e) == Some(TcpSlot)
  }

  /** The test of set_primary_lan_transport's loop: what is not a LAN preset or transport stays. */
  function StaysBeside(): Iface -> bool {
    (e: Iface) =>
      && e.preset != Given(UdpLan) && e.preset != Given(TcpLan)
      && e.itype != UdpType
      && (e.preset == Given(TcpServer) || e.itype != TcpServerType)
  }

  function NewLan(key: Preset, id: string, suffix: string): Item {
    Item(Some(id), Given(key), Some(Or(Label(key), "") + " " + suffix), None, Some(DefaultEnabled(key)), false, None, DefaultRest(key))
  }

  /** set_primary_lan_transport for the two LAN presets, on a normalised list. */
  function SetPrimary(es: seq<Iface>, key: Preset, id: string, suffix: string, newIds: seq<string>,
                      openPorts: set<string>, android: bool): seq<Iface>
    requires |newIds| == |Filter(es, StaysBeside())| + 1
  {
    NormalizeList(AsItems(Filter(es, StaysBeside())) + [NewLan(key, id, suffix)], newIds, openPorts, android)
  }

  /** On completed entries "stays" is exactly "is no LAN transport". */
  lemma StaysIffNotLan(e: Iface, openPorts: set<string>)
    requires Settled(e, openPorts)
    ensures StaysBeside()(e) <==> !IsLanTransport(e)
  {
  }

  lemma {:induction false} FilterSlots(es: seq<Iface>, p: Iface -> bool)
    requires OnePerSlot(es)
    ensures OnePerSlot(Filter(es, p))
    decreases |es|
  {
    hide SlotOf;
    if es != [] {
      FilterSlots(es[1..], p);
      var rest := Filter(es[1..], p);
      forall i | 0 <= i < |rest| && SlotOf(es[0]).Some?
        ensures SlotOf(rest[i]) != SlotOf(es[0])
      {
        assert rest[i] in es[1..];
      }
    }
  }

  /** The result is every other entry in order, then exactly one LAN transport: the one asked for. */
  lemma SetPrimaryResult(es: seq<Iface>, key: Preset, id: string, suffix: string, newIds: seq<string>,
                         openPorts: set<string>, android: bool)
    requires key == UdpLan || key == TcpLan
    requires OnePerSlot(es) && AllSettled(es, openPorts)
    requires |newIds| == |Filter(es, StaysBeside())| + 1
    ensures var others := Filter(es, (e: Iface) => !IsLanTransport(e));
            var r := SetPrimary(es, key, id, suffix, newIds, openPorts, android);
            && |r| == |others| + 1 && r[..|others|] == others
            && r[|others|].preset == Given(key) && r[|others|].enabled && IsLanTransport(r[|others|])
  {
    hide Settled, SlotOf, Complete, SyncSerial;
    var kept := Filter(es, StaysBeside());
    var others := Filter(es, (e: Iface) => !IsLanTransport(e));
    forall e | e in es
      ensures StaysBeside()(e) == !IsLanTransport(e)
    {
      var i :| 0 <= i < |es| && es[i] == e;
      StaysIffNotLan(e, openPorts);
    }
    FilterSame(es, StaysBeside(), (e: Iface) => !IsLanTransport(e));
    assert AllSettled(kept, openPorts) by {
      forall i | 0 <= i < |kept|
        ensures Settled(kept[i], openPorts)
      {
        assert kept[i] in es;
      }
    }
    FilterSlots(es, StaysBeside());
    var n := |kept|;
    var items := AsItems(kept) + [NewLan(key, id, suffix)];
    CompleteAllFixed(kept, newIds[..n], openPorts);
    assert items[..n] == AsItems(kept);
    var last := SyncSerial(Complete(items[n], newIds[n]), openPorts);
    NewLanCompleted(key, id, suffix, newIds[n], openPorts);
    var all := kept + [last];
    assert CompleteAll(items, newIds, openPorts) == all;
    assert all[..n] == kept;
    FirstPerSlotFixed(kept);
    assert !Taken(kept, SlotOf(last)) by {
      forall i | 0 <= i < n
        ensures SlotOf(kept[i]) != SlotOf(last)
      {
        assert kept[i] in kept && !IsLanTransport(kept[i]);
      }
    }
  }

  lemma NewLanCompleted(key: Preset, id: string, suffix: string, newId: string, openPorts: set<string>)
    requires key == UdpLan || key == TcpLan
    ensures NewLan(key, id, suffix).Item?
    ensures var e := SyncSerial(Complete(NewLan(key, id, suffix), newId), openPorts);
            e.preset == Given(key) && e.enabled && IsLanTransport(e)
  {
  }

  // ----- rendering -----

  datatype Section = Auto | Of(iface: Iface)

  /** serial_runtime_active. */
  predicate SerialActive(e: Iface, openPorts: set<string>) {
    IsSerialEntry(e) && !e.userDisabled && e.enabled && e.port != "" && e.port in openPorts
  }

  /** Whether the rendering loop writes a section, given the entries met before. */
  predicate Writes(before: seq<Iface>, e: Iface, android: bool, openPorts: set<string>) {
    if e.itype == SerialType then !Taken(before, SlotOf(e)) && !android && SerialActive(e, openPorts)
    else e.enabled && !TakenEnabled(before, SlotOf(e))
  }

  predicate TakenEnabled(es: seq<Iface>, s: Option<Slot>) {
    s.Some? && exists i :: 0 <= i < |es| && es[i].enabled && es[i].itype != SerialType && SlotOf(es[i]) == s
  }

  function Sections(es: seq<Iface>, android: bool, openPorts: set<string>): seq<Section> {
    if es == [] then []
    else
      var n := |es| - 1;
      Sections(es[..n], android, openPorts) + (if Writes(es[..n], es[n], android, openPorts) then [Of(es[n])] else [])
  }

  predicate TcpLanEnabled(es: seq<Iface>) {
    exists i :: 0 <= i < |es| && es[i].preset == Given(TcpLan) && es[i].enabled
  }

  predicate UdpEnabled(es: seq<Iface>) {
    exists i :: 0 <= i < |es| && es[i].itype == UdpType && es[i].enabled
  }

  predicate HasLanPreset(es: seq<Iface>) {
    exists i :: 0 <= i < |es| && (es[i].preset == Given(UdpLan) || es[i].preset == Given(TcpLan))
  }

  /** render_rns_config's interface sections. configured_tcp_lan_enabled normalises the list once more. */
  function Render(items: seq<Item>, newIds: seq<string>, again: seq<string>, openPorts: set<string>,
                  android: bool, windows: bool, auto: bool): seq<Section>
    requires |newIds| == |items| && |again| == |NormalizeList(items, newIds, openPorts, android)|
  {
    var es := NormalizeList(items, newIds, openPorts, android);
    var tcpLan := TcpLanEnabled(NormalizeList(AsItems(es), again, openPorts, android));
    Sections(es, android, openPorts)
    + (if auto && !UdpEnabled(es) && !tcpLan && !HasLanPreset(es) && !android && !windows then [Auto] else [])
  }

  /** The entries that get a section. */
  function Shown(android: bool, openPorts: set<string>): Iface -> bool {
    (e: Iface) => if e.itype == SerialType then !android && SerialActive(e, openPorts) else e.enabled
  }

  function SectionsOf(es: seq<Iface>): seq<Section> {
    seq(|es|, i requires 0 <= i < |es| => Of(es[i]))
  }

  lemma FlagsNeverFire(es: seq<Iface>, n: nat, android: bool, openPorts: set<string>)
    requires OnePerSlot(es) && n < |es|
    ensures OnePerSlot(es[..n])
    ensures Writes(es[..n], es[n], android, openPorts) == Shown(android, openPorts)(es[n])
  {
    hide SlotOf, SerialActive;
    assert !Taken(es[..n], SlotOf(es[n])) && !TakenEnabled(es[..n], SlotOf(es[n]));
  }

  lemma SectionsOfSnoc(es: seq<Iface>, e: Iface)
    ensures SectionsOf(es + [e]) == SectionsOf(es) + [Of(e)]
  {
  }

  /** With one entry per slot the loop's seen flags never fire: it renders exactly the entries in use. */
  lemma {:induction false} SectionsAreFilter(es: seq<Iface>, android: bool, openPorts: set<string>)
    requires OnePerSlot(es)
    ensures Sections(es, android, openPorts) == SectionsOf(Filter(es, Shown(android, openPorts)))
    decreases |es|
  {
    hide OnePerSlot, Writes, Shown;
    if es != [] {
      var n := |es| - 1;
      FlagsNeverFire(es, n, android, openPorts);
      SectionsAreFilter(es[..n], android, openPorts);
      assert es == es[..n] + [es[n]];
      FilterSnoc(es[..n], es[n], Shown(android, openPorts));
      SectionsOfSnoc(Filter(es[..n], Shown(android, openPorts)), es[n]);
      hide Filter, SectionsOf;
    }
  }

  /** For every input: each slot is rendered at most once, and AutoInterface never beside a LAN preset. */
  lemma RenderSafe(items: seq<Item>, newIds: seq<string>, again: seq<string>, openPorts: set<string>,
                   android: bool, windows: bool, auto: bool) returns (shown: seq<Iface>)
    requires |newIds| == |items| && |again| == |NormalizeList(items, newIds, openPorts, android)|
    ensures var es := NormalizeList(items, newIds, openPorts, android);
            var r := Render(items, newIds, again, openPorts, android, windows, auto);
            && OnePerSlot(shown)
            && shown == Filter(es, Shown(android, openPorts))
            && (r == SectionsOf(shown) || r == SectionsOf(shown) + [Auto])
            && (r == SectionsOf(shown) + [Auto] <==> auto && !android && !windows && !UdpEnabled(es) && !HasLanPreset(es))
  {
    hide NormalizeList, SlotOf, Settled, SerialActive;
    var es := NormalizeList(items, newIds, openPorts, android);
    NormalForm(items, newIds, openPorts, android);
    NormalizeIdempotent(items, newIds, again, openPorts, android);
    SectionsAreFilter(es, android, openPorts);
    shown := Filter(es, Shown(android, openPorts));
    FilterSlots(es, Shown(android, openPorts));
    if TcpLanEnabled(es) {
      assert HasLanPreset(es);
    }
    assert |SectionsOf(shown) + [Auto]| != |SectionsOf(shown)|;
  }

  // ----- the loops -----

  /** normalize_interface_list, with the seen set of its second loop. */
  method NormalizeInterfaceList(items: seq<Item>, newIds: seq<string>, openPorts: set<string>, android: bool)
    returns (deduped: seq<Iface>)
    requires |newIds| == |items|
    ensures deduped == NormalizeList(items, newIds, openPorts, android)
    ensures deduped != [] && OnePerSlot(deduped)
  {
    hide Complete, SyncSerial, SlotOf, Settled;
    NormalForm(items, newIds, openPorts, android);
    var all: seq<Iface> := [];
    for i := 0 to |items|
      invariant all == CompleteAll(items[..i], newIds[..i], openPorts)
    {
      assert items[..i + 1][..i] == items[..i] && newIds[..i + 1][..i] == newIds[..i];
      if items[i].Item? {
        all := all + [SyncSerial(Complete(items[i], newIds[i]), openPorts)];
      }
    }
    assert items[..|items|] == items && newIds[..|items|] == newIds;
    if all == [] {
      return DefaultList(android);
    }
    deduped := [];
    var seen: set<Slot> := {};
    for i := 0 to |all|
      invariant deduped == FirstPerSlot(all[..i])
      invariant forall s :: s in seen <==> Taken(deduped, Some(s))
    {
      assert all[..i + 1][..i] == all[..i];
      var slot := SlotOf(all[i]);
      if slot.Some? && slot.value in seen {
        continue;
      }
      ghost var before := deduped;
      deduped := deduped + [all[i]];
      TakenSnoc(before, all[i]);
      if slot.Some? {
        seen := seen + {slot.value};
      }
    }
    assert all[..|all|] == all;
  }

  lemma TakenSnoc(es: seq<Iface>, e: Iface)
    ensures forall s :: Taken(es + [e], Some(s)) <==> Taken(es, Some(s)) || SlotOf(e) == Some(s)
  {
    hide SlotOf;
    forall s
      ensures Taken(es + [e], Some(s)) <==> Taken(es, Some(s)) || SlotOf(e) == Some(s)
    {
      if Taken(es, Some(s)) {
        var i :| 0 <= i < |es| && SlotOf(es[i]) == Some(s);
        assert (es + [e])[i] == es[i];
      }
      if SlotOf(e) == Some(s) {
        assert (es + [e])[|es|] == e;
      }
    }
  }

  /** The loop of set_primary_lan_transport, then the normalisation of what it kept with the new entry. */
  method SetPrimaryLanTransport(es: seq<Iface>, key: Preset, id: string, suffix: string, newIds: seq<string>,
                                openPorts: set<string>, android: bool) returns (r: seq<Iface>)
    requires |newIds| == |Filter(es, StaysBeside())| + 1
    ensures r == SetPrimary(es, key, id, suffix, newIds, openPorts, android)
  {
    hide NormalizeList;
    var kept: seq<Iface> := [];
    for i := 0 to |es|
      invariant kept == Filter(es[..i], StaysBeside())
    {
      var e := es[i];
      assert es[..i + 1] == es[..i] + [e];
      FilterSnoc(es[..i], e, StaysBeside());
      if e.preset == Given(UdpLan) || e.preset == Given(TcpLan) || e.itype == UdpType {
        continue;
      }
      if e.itype == TcpServerType && e.preset != Given(TcpServer) {
        continue;
      }
      kept := kept + [e];
    }
    assert es[..|es|] == es;
    r := NormalizeInterfaceList(AsItems(kept) + [NewLan(key, id, suffix)], newIds, openPorts, android);
  }

  /** What the rendering loop's seen ports and flags stand for. */
  ghost predicate FlagsFor(es: seq<Iface>, ports: set<string>, udp: bool, tcp: bool) {
    && (forall p :: p in ports <==> Taken(es, Some(SerialSlot(p))))
    && (udp <==> TakenEnabled(es, Some(UdpSlot)))
    && (tcp <==> TakenEnabled(es, Some(TcpSlot)))
  }

  lemma TakenEnabledSnoc(es: seq<Iface>, e: Iface, s: Slot)
    ensures TakenEnabled(es + [e], Some(s)) <==>
              TakenEnabled(es, Some(s)) || (e.enabled && e.itype != SerialType && SlotOf(e) == Some(s))
  {
    hide SlotOf;
    if TakenEnabled(es, Some(s)) {
      var i :| 0 <= i < |es| && es[i].enabled && es[i].itype != SerialType && SlotOf(es[i]) == Some(s);
      assert (es + [e])[i] == es[i];
    }
    if e.enabled && e.itype != SerialType && SlotOf(e) == Some(s) {
      assert (es + [e])[|es|] == e;
    }
  }

  lemma FlagsStep(es: seq<Iface>, e: Iface, ports: set<string>, udp: bool, tcp: bool)
    requires FlagsFor(es, ports, udp, tcp)
    ensures FlagsFor(es + [e],
                     if e.itype == SerialType && e.port != "" then ports + {e.port} else ports,
                     udp || (e.itype != SerialType && e.enabled && SlotOf(e) == Some(UdpSlot)),
                     tcp || (e.itype != SerialType && e.enabled && SlotOf(e) == Some(TcpSlot)))
  {
    hide Taken, TakenEnabled;
    TakenSnoc(es, e);
    TakenEnabledSnoc(es, e, UdpSlot);
    TakenEnabledSnoc(es, e, TcpSlot);
  }

  /** The interface loop of render_rns_config, with its seen ports and flags. */
  method RenderLoop(es: seq<Iface>, android: bool, openPorts: set<string>) returns (out: seq<Section>)
    ensures out == Sections(es, android, openPorts)
  {
    hide Taken, TakenEnabled, SerialActive;
    out := [];
    var seenPorts: set<string> := {};
    var seenUdp, seenTcp := false, false;
    assert FlagsFor([], {}, false, false) by {
      NoFlags();
    }
    for i := 0 to |es|
      invariant out == Sections(es[..i], android, openPorts)
      invariant FlagsFor(es[..i], seenPorts, seenUdp, seenTcp)
    {
      var e := es[i];
      assert es[..i + 1] == es[..i] + [e] && es[..i + 1][..i] == es[..i];
      FlagsStep(es[..i], e, seenPorts, seenUdp, seenTcp);
      NothingTaken(es[..i]);
      if e.itype == SerialType {
        if e.port != "" {
          if e.port in seenPorts {
            continue;
          }
          seenPorts := seenPorts + {e.port};
        }
        if !android && SerialActive(e, openPorts) {
          out := out + [Of(e)];
        }
        continue;
      }
      if !e.enabled {
        continue;
      }
      if e.itype == UdpType || e.preset == Given(UdpLan) {
        if seenUdp {
          continue;
        }
        seenUdp := true;
      } else if e.preset == Given(TcpLan) || (e.itype == TcpServerType && e.preset != Given(TcpServer)) {
        if seenTcp {
          continue;
        }
        seenTcp := true;
      }
      out := out + [Of(e)];
    }
    assert es[..|es|] == es;
  }

  lemma NoFlags()
    ensures FlagsFor([], {}, false, false)
  {
  }

  lemma NothingTaken(es: seq<Iface>)
    ensures !Taken(es, None) && !TakenEnabled(es, None)
  {
  }
}
