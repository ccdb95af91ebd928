/** What becomes of one stored interface entry: completed, kept or dropped as a duplicate, and rendered. */
module InterfaceEntries {
  import opened Collections
  import opened Interfaces

  /** The entry the first loop makes of a stored one. */
  function Completed(i: Item, newId: string, openPorts: set<string>): Iface
    requires i.Item?
  {
    SyncSerial(Complete(i, newId), openPorts)
  }

  /** An entry without a preset, or with an empty one, counts as UDP LAN. */
  predicate CountsAsUdpLan(f: PresetField) {
    f == Missing || f == PresetField.Empty || f == Given(UdpLan)
  }

  predicate CountsAsSerial(i: Item)
    requires i.Item?
  {
    i.preset == Given(SerialPort) || (i.preset.Given? && i.preset.preset.OtherPreset? && i.itype == Some(SerialType))
  }

  /** The type follows the preset where that is known, whatever was stored. */
  lemma TypeFollowsPreset(i: Item, newId: string, openPorts: set<string>)
    requires i.Item?
    ensures var t := Completed(i, newId, openPorts).itype;
            && (CountsAsUdpLan(i.preset) ==> t == UdpType)
            && (i.preset == Given(TcpLan) || i.preset == Given(TcpServer) ==> t == TcpServerType)
            && (i.preset == Given(TcpClient) ==> t == TcpClientType)
            && (i.preset == Given(SerialPort) ==> t == SerialType)
            && (i.preset.Given? && i.preset.preset.OtherPreset? ==> t == if i.itype.Some? then i.itype.value else UdpType)
  {
  }

  /** Every other stored field wins over its default; a serial entry is enabled exactly while its port can be opened and
      the user has not disabled it. */
  lemma StoredWins(i: Item, newId: string, openPorts: set<string>)
    requires i.Item?
    ensures var e := Completed(i, newId, openPorts);
            && e.preset == (if i.preset == Missing then Given(UdpLan) else i.preset)
            && e.id == (if i.id.Some? then i.id.value else newId)
            && (i.name.Some? ==> e.name == i.name.value)
            && e.port == (if i.port.Some? then i.port.value else "")
            && e.userDisabled == i.userDisabled
            && (forall k :: k in i.rest ==> k in e.rest && e.rest[k] == i.rest[k])
            && (if CountsAsSerial(i) then e.enabled <==> !i.userDisabled && e.port != "" && e.port in openPorts
                else e.enabled == (i.enabled.None? || i.enabled.value))
  {
  }

  /** The fields a new entry starts with: LAN presets and the hub server listen on port 4242 of every address, UDP LAN
      also broadcasts to it, a client dials it, a serial line runs at 57600. */
  lemma FreshEntry(p: Preset, newId: string, openPorts: set<string>)
    ensures var e := Completed(Item(None, Given(p), None, None, None, false, None, map[]), newId, openPorts);
            var listens := map["listen_ip" := "0.0.0.0", "listen_port" := "4242", "ifac_size" := "16"];
            match p
            case UdpLan => e.name == "UDP LAN" && e.rest == listens["forward_ip" := "255.255.255.255"]["forward_port" := "4242"]
            case TcpLan => e.name == "TCP LAN" && e.rest == listens
            case TcpServer => e.name == "TCP Hub Server" && e.rest == listens
            case TcpClient =>
              e.name == "TCP Client" && e.rest == map["target_host" := "127.0.0.1", "target_port" := "4242", "ifac_size" := "16"]
            case SerialPort => e.name == "Serial" && e.rest == map["speed" := "57600", "ifac_size" := "16"] && !e.enabled
            case OtherPreset(_) =>
              e.name == "Interface" && e.rest == listens["forward_ip" := "255.255.255.255"]["forward_port" := "4242"]
  {
  }

  /** An entry of an unknown preset without a name is named after its type. */
  lemma NamedAfterType(i: Item, newId: string, openPorts: set<string>)
    requires i.Item? && i.preset.Given? && i.preset.preset.OtherPreset? && i.name == None && i.itype.Some?
    ensures Completed(i, newId, openPorts).name ==
              match i.itype.value
              case UdpType => "UDPInterface"
              case TcpServerType => "TCPServerInterface"
              case TcpClientType => "TCPClientInterface"
              case SerialType => "SerialInterface"
              case OtherType(n) => n
  {
  }

  // ----- duplicates -----

  /** What may occur once, read off the stored entry: one UDP entry, one TCP LAN entry, each serial port. TCP clients,
      hub servers, serial entries without a port and foreign types may occur any number of times. */
  lemma SlotMeaning(i: Item, newId: string, openPorts: set<string>)
    requires i.Item?
    ensures var s := SlotOf(Completed(i, newId, openPorts));
            var foreign := i.preset.Given? && i.preset.preset.OtherPreset?;
            var port := if i.port.Some? then i.port.value else "";
            && (s == Some(UdpSlot) <==> CountsAsUdpLan(i.preset) || (foreign && i.itype in {None, Some(UdpType)}))
            && (s == Some(TcpSlot) <==> i.preset == Given(TcpLan) || (foreign && i.itype == Some(TcpServerType)))
            && (forall p :: s == Some(SerialSlot(p)) <==> CountsAsSerial(i) && p == port && p != "")
  {
  }

  lemma {:induction false} CompleteAllMembers(items: seq<Item>, newIds: seq<string>, openPorts: set<string>, e: Iface)
    requires |newIds| == |items|
    ensures e in CompleteAll(items, newIds, openPorts) <==>
              exists k :: 0 <= k < |items| && items[k].Item? && e == Completed(items[k], newIds[k], openPorts)
    decreases |items|
  {
    hide SyncSerial, Complete;
    if items != [] {
      var n := |items| - 1;
      CompleteAllMembers(items[..n], newIds[..n], openPorts, e);
      if k :| 0 <= k < n && items[..n][k].Item? && e == Completed(items[..n][k], newIds[..n][k], openPorts) {
        assert items[k].Item? && e == Completed(items[k], newIds[k], openPorts);
      }
      if k :| 0 <= k < |items| && items[k].Item? && e == Completed(items[k], newIds[k], openPorts) {
        if k < n {
          assert items[..n][k].Item? && e == Completed(items[..n][k], newIds[..n][k], openPorts);
        }
      }
    }
  }

  /** Of the entries of one slot the first is kept. */
  lemma {:induction false} FirstIsKept(es: seq<Iface>, k: nat)
    requires k < |es| && forall j :: 0 <= j < k ==> SlotOf(es[j]) != SlotOf(es[k]) || SlotOf(es[k]) == None
    ensures es[k] in FirstPerSlot(es)
    decreases |es|
  {
    hide SlotOf;
    var n := |es| - 1;
    if k < n {
      FirstIsKept(es[..n], k);
    } else {
      FirstPerSlotUnique(es[..n]);
      forall e | e in es[..n]
        ensures SlotOf(e) != SlotOf(es[n]) || SlotOf(es[n]) == None
      {
        var j :| 0 <= j < n && es[..n][j] == e;
        assert es[j] == e;
      }
      assert !Taken(FirstPerSlot(es[..n]), SlotOf(es[n]));
    }
  }

  /** The entry is what one of the first k stored ones becomes. */
  ghost predicate From(items: seq<Item>, newIds: seq<string>, openPorts: set<string>, k: nat, e: Iface)
    requires |newIds| == |items| && k <= |items|
  {
    exists m :: 0 <= m < k && items[m].Item? && e == Completed(items[m], newIds[m], openPorts)
  }

  lemma FromPrefix(items: seq<Item>, newIds: seq<string>, openPorts: set<string>, n: nat, k: nat, e: Iface)
    requires |newIds| == |items| && k <= n <= |items| && From(items[..n], newIds[..n], openPorts, k, e)
    ensures From(items, newIds, openPorts, k, e)
  {
    hide Completed;
    var m :| 0 <= m < k && items[..n][m].Item? && e == Completed(items[..n][m], newIds[..n][m], openPorts);
    assert items[m].Item? && e == Completed(items[m], newIds[m], openPorts);
  }

  lemma {:induction false} CompleteAllAt(items: seq<Item>, newIds: seq<string>, openPorts: set<string>, k: nat) returns (at: nat)
    requires |newIds| == |items| && k < |items| && items[k].Item?
    ensures var all := CompleteAll(items, newIds, openPorts);
            && at < |all| && all[at] == Completed(items[k], newIds[k], openPorts)
            && forall j :: 0 <= j < at ==> From(items, newIds, openPorts, k, all[j])
    decreases |items|
  {
    hide SyncSerial, Complete, From;
    var n := |items| - 1;
    var before, all := CompleteAll(items[..n], newIds[..n], openPorts), CompleteAll(items, newIds, openPorts);
    assert before <= all;
    if k < n {
      at := CompleteAllAt(items[..n], newIds[..n], openPorts, k);
      forall j | 0 <= j < at
        ensures From(items, newIds, openPorts, k, all[j])
      {
        FromPrefix(items, newIds, openPorts, n, k, before[j]);
      }
    } else {
      at := |before|;
      forall j | 0 <= j < at
        ensures From(items, newIds, openPorts, k, all[j])
      {
        BeforeFrom(items, newIds, openPorts, n, before[j]);
      }
    }
  }

  lemma BeforeFrom(items: seq<Item>, newIds: seq<string>, openPorts: set<string>, n: nat, e: Iface)
    requires |newIds| == |items| && n <= |items| && e in CompleteAll(items[..n], newIds[..n], openPorts)
    ensures From(items, newIds, openPorts, n, e)
  {
    hide Completed, CompleteAll;
    CompleteAllMembers(items[..n], newIds[..n], openPorts, e);
    assert From(items[..n], newIds[..n], openPorts, n, e);
    FromPrefix(items, newIds, openPorts, n, n, e);
  }

  /** A stored entry is in the normalised list, completed, unless an earlier one has the same slot. */
  lemma KeptUnlessEarlier(items: seq<Item>, newIds: seq<string>, openPorts: set<string>, android: bool, k: nat)
    requires |newIds| == |items| && k < |items| && items[k].Item?
    requires forall m :: 0 <= m < k && items[m].Item? ==>
               || SlotOf(Completed(items[k], newIds[k], openPorts)) == None
               || SlotOf(Completed(items[m], newIds[m], openPorts)) != SlotOf(Completed(items[k], newIds[k], openPorts))
    ensures Completed(items[k], newIds[k], openPorts) in NormalizeList(items, newIds, openPorts, android)
  {
    hide SlotOf, Complete, SyncSerial, CompleteAll, FirstPerSlot;
    var at := CompleteAllAt(items, newIds, openPorts, k);
    FirstIsKept(CompleteAll(items, newIds, openPorts), at);
  }

  /** No entry of the normalised list is invented: each is a stored entry completed, or the default of an empty list. */
  lemma NoneInvented(items: seq<Item>, newIds: seq<string>, openPorts: set<string>, android: bool, e: Iface)
    requires |newIds| == |items| && e in NormalizeList(items, newIds, openPorts, android)
    ensures if exists k :: 0 <= k < |items| && items[k].Item?
            then exists k :: 0 <= k < |items| && items[k].Item? && e == Completed(items[k], newIds[k], openPorts)
            else
              && NormalizeList(items, newIds, openPorts, android) == [e] && e.enabled && !e.userDisabled
              && e.preset == Given(if android then TcpLan else UdpLan)
              && e.itype == if android then TcpServerType else UdpType
  {
    hide SlotOf, Complete, SyncSerial, CompleteAll, FirstPerSlot;
    var all := CompleteAll(items, newIds, openPorts);
    FirstPerSlotUnique(all);
    CompleteAllMembers(items, newIds, openPorts, e);
    if k :| 0 <= k < |items| && items[k].Item? {
      CompleteAllMembers(items, newIds, openPorts, Completed(items[k], newIds[k], openPorts));
    }
  }

  /** A TCP client, a hub server or an entry of another type is never lost, however many there are: it stays with its type
      and its stored fields. */
  lemma OrdinaryEntryStays(items: seq<Item>, newIds: seq<string>, openPorts: set<string>, android: bool, k: nat)
    returns (e: Iface)
    requires |newIds| == |items| && k < |items| && items[k].Item?
    requires var i := items[k];
             || i.preset == Given(TcpClient) || i.preset == Given(TcpServer)
             || (&& i.preset.Given? && i.preset.preset.OtherPreset? && i.itype.Some?
                 && (i.itype.value == TcpClientType || i.itype.value.OtherType?))
    ensures e in NormalizeList(items, newIds, openPorts, android) && e.preset == items[k].preset
    ensures items[k].preset == Given(TcpClient) ==> e.itype == TcpClientType
    ensures items[k].preset == Given(TcpServer) ==> e.itype == TcpServerType
    ensures items[k].preset.preset.OtherPreset? ==> Some(e.itype) == items[k].itype
    ensures e.enabled == (items[k].enabled.None? || items[k].enabled.value)
    ensures forall f :: f in items[k].rest ==> f in e.rest && e.rest[f] == items[k].rest[f]
  {
    e := Completed(items[k], newIds[k], openPorts);
    SlotMeaning(items[k], newIds[k], openPorts);
    TypeFollowsPreset(items[k], newIds[k], openPorts);
    StoredWins(items[k], newIds[k], openPorts);
    hide Completed, NormalizeList;
    assert SlotOf(e) == None;
    KeptUnlessEarlier(items, newIds, openPorts, android, k);
  }

  /** The LAN transport that takes over is a fresh entry of its preset under the id and name suffix given. */
  lemma SetPrimaryEntry(es: seq<Iface>, key: Preset, id: string, suffix: string, newIds: seq<string>,
                        openPorts: set<string>, android: bool)
    requires key == UdpLan || key == TcpLan
    requires OnePerSlot(es) && AllSettled(es, openPorts)
    requires |newIds| == |Filter(es, StaysBeside())| + 1
    ensures var r := SetPrimary(es, key, id, suffix, newIds, openPorts, android);
            var listens := map["listen_ip" := "0.0.0.0", "listen_port" := "4242", "ifac_size" := "16"];
            && r != []
            && r[|r| - 1] == (if key == UdpLan
                  then Iface(id, Given(UdpLan), "UDP LAN " + suffix, UdpType, true, false, "",
                             listens["forward_ip" := "255.255.255.255"]["forward_port" := "4242"])
                  else Iface(id, Given(TcpLan), "TCP LAN " + suffix, TcpServerType, true, false, "", listens))
  {
    SetPrimaryResult(es, key, id, suffix, newIds, openPorts, android);
    NewLanEntry(key, id, suffix, newIds[|newIds| - 1], openPorts);
    hide Completed, Complete, SyncSerial, NewLan, SlotOf, Settled, OnePerSlot;
    var kept := Filter(es, StaysBeside());
    var items := AsItems(kept) + [NewLan(key, id, suffix)];
    var r := SetPrimary(es, key, id, suffix, newIds, openPorts, android);
    NoneInvented(items, newIds, openPorts, android, r[|r| - 1]);
    LastIsLan(es, items, newIds, openPorts, r[|r| - 1]);
  }

  lemma NewLanEntry(key: Preset, id: string, suffix: string, newId: string, openPorts: set<string>)
    requires key == UdpLan || key == TcpLan
    ensures NewLan(key, id, suffix).Item?
    ensures var listens := map["listen_ip" := "0.0.0.0", "listen_port" := "4242", "ifac_size" := "16"];
            Completed(NewLan(key, id, suffix), newId, openPorts)
            == if key == UdpLan
               then Iface(id, Given(UdpLan), "UDP LAN " + suffix, UdpType, true, false, "",
                          listens["forward_ip" := "255.255.255.255"]["forward_port" := "4242"])
               else Iface(id, Given(TcpLan), "TCP LAN " + suffix, TcpServerType, true, false, "", listens)
  {
  }

  /** Among the entries beside which the new one is put none is a LAN transport. */
  lemma LastIsLan(es: seq<Iface>, items: seq<Item>, newIds: seq<string>, openPorts: set<string>, e: Iface)
    requires AllSettled(es, openPorts) && items != [] && |newIds| == |items| && IsLanTransport(e)
    requires items[..|items| - 1] == AsItems(Filter(es, StaysBeside())) && items[|items| - 1].Item?
    requires exists k :: 0 <= k < |items| && items[k].Item? && e == Completed(items[k], newIds[k], openPorts)
    ensures e == Completed(items[|items| - 1], newIds[|items| - 1], openPorts)
  {
    hide SlotOf, IsLanTransport, Complete, SyncSerial, Settled;
    var kept := Filter(es, StaysBeside());
    var k :| 0 <= k < |items| && items[k].Item? && e == Completed(items[k], newIds[k], openPorts);
    if k < |items| - 1 {
      assert items[k] == items[..|items| - 1][k] == AsItem(kept[k]) && kept[k] in es;
      var j :| 0 <= j < |es| && es[j] == kept[k];
      SettledFixed(kept[k], newIds[k], openPorts);
      StaysIffNotLan(kept[k], openPorts);
      assert false;
    }
  }

  // ----- rendering -----

  /** An entry of the normalised list gets a section exactly when it is enabled, and on Android is no serial one: being
      enabled already says of a serial entry that its port can be opened. AutoInterface gets one only when asked for, on a
      desktop other than Windows, when no LAN preset is stored and no UDP entry is enabled. */
  lemma RenderedIff(items: seq<Item>, newIds: seq<string>, again: seq<string>, openPorts: set<string>,
                    android: bool, windows: bool, auto: bool, e: Iface)
    requires |newIds| == |items| && |again| == |NormalizeList(items, newIds, openPorts, android)|
    ensures var es := NormalizeList(items, newIds, openPorts, android);
            var r := Render(items, newIds, again, openPorts, android, windows, auto);
            && (Of(e) in r <==> e in es && e.enabled && !(android && e.itype == SerialType))
            && (Auto in r <==>
                  && auto && !android && !windows
                  && forall x :: x in es ==>
                       x.preset != Given(UdpLan) && x.preset != Given(TcpLan) && !(x.itype == UdpType && x.enabled))
  {
    hide NormalizeList, SlotOf, Settled, SerialActive, Render, SectionsOf, Shown, UdpEnabled, HasLanPreset;
    var shown := RenderSafe(items, newIds, again, openPorts, android, windows, auto);
    var es := NormalizeList(items, newIds, openPorts, android);
    SectionsNamed(shown, e);
    LanAbsent(es);
    assert e in es ==> (Shown(android, openPorts)(e) <==> e.enabled && !(android && e.itype == SerialType)) by {
      if e in es {
        NormalForm(items, newIds, openPorts, android);
        var j :| 0 <= j < |es| && es[j] == e;
        SettledShown(e, android, openPorts);
      }
    }
  }

  lemma LanAbsent(es: seq<Iface>)
    ensures !UdpEnabled(es) && !HasLanPreset(es) <==>
              forall x :: x in es ==>
                x.preset != Given(UdpLan) && x.preset != Given(TcpLan) && !(x.itype == UdpType && x.enabled)
  {
    if !UdpEnabled(es) && !HasLanPreset(es) {
      forall x | x in es
        ensures x.preset != Given(UdpLan) && x.preset != Given(TcpLan) && !(x.itype == UdpType && x.enabled)
      {
        var j :| 0 <= j < |es| && es[j] == x;
      }
    }
  }

  lemma SectionsNamed(shown: seq<Iface>, e: Iface)
    ensures (Of(e) in SectionsOf(shown) <==> e in shown) && Auto !in SectionsOf(shown)
  {
    if e in shown {
      var j :| 0 <= j < |shown| && shown[j] == e;
      assert SectionsOf(shown)[j] == Of(e);
    }
  }

  lemma SettledShown(e: Iface, android: bool, openPorts: set<string>)
    requires Settled(e, openPorts)
    ensures Shown(android, openPorts)(e) <==> e.enabled && !(android && e.itype == SerialType)
  {
  }
}
