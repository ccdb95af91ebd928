/** Row by row, what one drain puts on the wire and what it leaves in the queue, for texts, files and group messages. */
module QueueWire {
  import opened Collections
  import opened Aliases
  import opened LinkChoice
  import opened OutboundQueue
  import opened QueueDelivery
  import opened QueueSafety

  // ----- picking one row's share out of a loop -----

  /** The transmissions of one row. */
  function PacketsOf(wire: seq<Packet>, serial: nat): seq<Packet> {
    Filter(wire, (p: Packet) => p.serial == serial)
  }

  /** What a queue holds of one row. */
  function HeldOf(q: seq<Entry>, serial: nat): seq<Entry> {
    Filter(q, (e: Entry) => e.serial == serial)
  }

  /** Each outcome names its own row alone, and the rows have different serials. */
  ghost predicate OwnRows(rows: seq<Entry>, os: seq<Outcome>) {
    && |os| == |rows|
    && (forall i, j :: 0 <= i < j < |rows| ==> rows[i].serial != rows[j].serial)
    && (forall i :: 0 <= i < |os| ==> Own(rows[i], os[i]))
  }

  ghost predicate Own(e: Entry, o: Outcome) {
    (forall k :: k in o.kept ==> k.serial == e.serial) && (forall p :: p in o.packets ==> p.serial == e.serial)
  }

  lemma {:induction false} OthersAbsent(rows: seq<Entry>, os: seq<Outcome>, serial: nat)
    requires OwnRows(rows, os) && forall i :: 0 <= i < |rows| ==> rows[i].serial != serial
    ensures PacketsOf(Gather(os).packets, serial) == [] && HeldOf(Gather(os).kept, serial) == []
    decreases |os|
  {
    hide Filter;
    if os == [] {
      FilterNone(Gather(os).packets, (p: Packet) => p.serial == serial);
      FilterNone(Gather(os).kept, (e: Entry) => e.serial == serial);
    } else {
      OthersAbsent(rows[1..], os[1..], serial);
      SplitFirst(os, serial);
      assert Own(rows[0], os[0]);
      FilterNone(os[0].packets, (p: Packet) => p.serial == serial);
      FilterNone(os[0].kept, (e: Entry) => e.serial == serial);
    }
  }

  lemma SplitFirst(os: seq<Outcome>, serial: nat)
    requires os != []
    ensures var rest := Gather(os[1..]);
            && PacketsOf(Gather(os).packets, serial) == PacketsOf(os[0].packets, serial) + PacketsOf(rest.packets, serial)
            && HeldOf(Gather(os).kept, serial) == HeldOf(os[0].kept, serial) + HeldOf(rest.kept, serial)
  {
    hide Filter;
    var rest := Gather(os[1..]);
    FilterAppend(os[0].packets, rest.packets, (p: Packet) => p.serial == serial);
    FilterAppend(os[0].kept, rest.kept, (e: Entry) => e.serial == serial);
  }

  /** What a loop gathers of a row is that row's outcome. */
  lemma {:induction false} GatherOne(rows: seq<Entry>, os: seq<Outcome>, i: nat)
    requires OwnRows(rows, os) && i < |os|
    ensures PacketsOf(Gather(os).packets, rows[i].serial) == os[i].packets
    ensures HeldOf(Gather(os).kept, rows[i].serial) == os[i].kept
    decreases |os|
  {
    hide Filter, Gather;
    var serial := rows[i].serial;
    SplitFirst(os, serial);
    assert Own(rows[0], os[0]);
    if i == 0 {
      OthersAbsent(rows[1..], os[1..], serial);
      FilterAll(os[0].packets, (p: Packet) => p.serial == serial);
      FilterAll(os[0].kept, (e: Entry) => e.serial == serial);
    } else {
      GatherOne(rows[1..], os[1..], i - 1);
      FilterNone(os[0].packets, (p: Packet) => p.serial == serial);
      FilterNone(os[0].kept, (e: Entry) => e.serial == serial);
    }
  }

  // ----- one drain -----

  /** The part of the wire a step added. */
  function Added(s: QState, r: QState): seq<Packet>
    requires |s.wire| <= |r.wire|
  {
    r.wire[|s.wire|..]
  }

  lemma DrainShare(s: QState, c: DrainCall, attempts: seq<Attempt>, i: nat)
    requires InOrder(s.queue, s.history) && |attempts| == |s.queue| && i < |s.queue|
    ensures var r, o := Drain(s, c, attempts), DrainRow(c, s.queue[i], attempts[i]);
            && s.wire <= r.wire
            && PacketsOf(Added(s, r), s.queue[i].serial) == o.packets
            && HeldOf(r.queue, s.queue[i].serial) == o.kept
  {
    hide DrainRow, Gather, Filter;
    var os := DrainOutcomes(c, s.queue, attempts);
    forall j | 0 <= j < |os|
      ensures Own(s.queue[j], os[j])
    {
      OutcomeIsOwn(c, s.queue[j], attempts[j]);
    }
    GatherOne(s.queue, os, i);
    assert Added(s, Drain(s, c, attempts)) == Gather(os).packets;
  }

  predicate IsFile(r: Row) {
    r.kind == File || r.kind == Image || r.kind == Video
  }

  /** A file row goes out when it matches, files are asked for, its file exists, the link is live and the radio takes it.
      Whole, it leaves with its packet; as metadata it stays; with its file gone it leaves unsent. */
  lemma DrainFileIff(s: QState, c: DrainCall, attempts: seq<Attempt>, i: nat)
    requires InOrder(s.queue, s.history) && |attempts| == |s.queue| && i < |s.queue| && IsFile(s.queue[i].row)
    ensures var r, e, a := Drain(s, c, attempts), s.queue[i], attempts[i];
            var ps := PacketsOf(Added(s, r), e.serial);
            var asked := QueueMatches(c.table, e, c.peer) && c.includeFiles;
            && (ps != [] <==> asked && a.fileExists && IsActive(a.env, c.link) && a.fate != NotSent)
            && (ps != [] ==> ps == [Packet(e.serial, c.link, c.peer, a.at, a.fate == Sent, false, false, Moment(c.table, c.env))])
            && HeldOf(r.queue, e.serial) == if asked && (!a.fileExists || (ps != [] && ps[0].complete)) then [] else [e]
  {
    hide QueueMatches, Gather, Filter, SendLink;
    DrainShare(s, c, attempts, i);
  }

  /** A row of a known kind whose file, if it is one, still exists leaves only with a whole copy of it on the wire. */
  lemma LeavesWithPacket(s: QState, c: DrainCall, attempts: seq<Attempt>, i: nat) returns (p: Packet)
    requires InOrder(s.queue, s.history) && |attempts| == |s.queue| && i < |s.queue|
    requires s.queue[i].row.kind != OtherKind && attempts[i].fileExists
    requires !Survives(Drain(s, c, attempts).queue, s.queue[i])
    ensures s.wire <= Drain(s, c, attempts).wire && p in Added(s, Drain(s, c, attempts))
    ensures p.serial == s.queue[i].serial && p.complete && p.link == c.link && p.peer == c.peer && !p.text
  {
    hide Drain, QueueMatches, IsActive, InOrder, Filter;
    var r, e := Drain(s, c, attempts), s.queue[i];
    DrainRemovesIff(s, c, attempts, i);
    DrainShare(s, c, attempts, i);
    DrainFileIff(s, c, attempts, i);
    p := PacketsOf(Added(s, r), e.serial)[0];
    assert p in PacketsOf(Added(s, r), e.serial);
  }

  /** A text row goes out when it matches, is not waiting for its receipt and has a link the radio takes it on: whole, or
      when too long for one packet perhaps only its metadata. It stays: stamped when whole, its old stamp dropped when a
      transmission was due, untouched otherwise. */
  lemma DrainTextIff(s: QState, c: DrainCall, attempts: seq<Attempt>, i: nat)
    requires InOrder(s.queue, s.history) && |attempts| == |s.queue| && i < |s.queue| && IsText(s.queue[i].row)
    ensures var r, e, a := Drain(s, c, attempts), s.queue[i], attempts[i];
            var due := QueueMatches(c.table, e, c.peer) && !Awaiting(e, c.now);
            var l := SendLink(c.table, a.env, c.peer, Some(c.link));
            var ps := PacketsOf(Added(s, r), e.serial);
            && (ps != [] <==>
                due && l.Some? && (a.fate == Sent || (a.fate == MetadataOnly && e.row.size + 50 > Info(a.env, l.value).mtu)))
            && (ps != [] ==>
                  ps == [Packet(e.serial, l.value, c.peer, a.at, a.fate == Sent, true, false, Moment(c.table, a.env))])
            && (exists stamp :: HeldOf(r.queue, e.serial) == [e.(sentAt := stamp)]
                  && (if ps != [] && ps[0].complete then stamp == Some(a.stamp)
                      else if due && HasStamp(e) then stamp == None
                      else stamp == e.sentAt))
  {
    hide QueueMatches, Gather, Filter, SendLink, Awaiting, HasStamp;
    var r, e := Drain(s, c, attempts), s.queue[i];
    DrainShare(s, c, attempts, i);
    var kept := DrainRow(c, e, attempts[i]).kept[0];
    assert HeldOf(r.queue, e.serial) == [e.(sentAt := kept.sentAt)];
  }

  /** Rows of unknown kind leave when they match, and nothing of them is sent. */
  lemma DrainOtherIff(s: QState, c: DrainCall, attempts: seq<Attempt>, i: nat)
    requires InOrder(s.queue, s.history) && |attempts| == |s.queue| && i < |s.queue| && s.queue[i].row.kind == OtherKind
    ensures var r, e := Drain(s, c, attempts), s.queue[i];
            && PacketsOf(Added(s, r), e.serial) == []
            && HeldOf(r.queue, e.serial) == if QueueMatches(c.table, e, c.peer) then [] else [e]
  {
    hide QueueMatches, Gather, Filter, SendLink;
    DrainShare(s, c, attempts, i);
  }

  lemma {:induction false} GatherCallbacks(os: seq<Outcome>, id: string)
    ensures id in Gather(os).callbacks <==> exists i :: 0 <= i < |os| && id in os[i].callbacks
    decreases |os|
  {
    if os != [] {
      GatherCallbacks(os[1..], id);
      assert forall i :: 0 < i < |os| ==> os[i] == os[1..][i - 1];
      if i :| 0 <= i < |os[1..]| && id in os[1..][i].callbacks {
        assert id in os[i + 1].callbacks;
      }
    }
  }

  /** After a drain an id waits for a read receipt if it did before, or if a whole text of that id went out. */
  lemma DrainCallbacksIff(s: QState, c: DrainCall, attempts: seq<Attempt>, id: string)
    requires InOrder(s.queue, s.history) && |attempts| == |s.queue|
    ensures var r := Drain(s, c, attempts);
            && s.wire <= r.wire
            && (id in r.callbacks <==>
                || id in s.callbacks
                || exists i, p :: 0 <= i < |s.queue| && s.queue[i].row.msgId == id
                                  && p in Added(s, r) && p.serial == s.queue[i].serial && FullText(p))
  {
    hide DrainRow, Gather, InOrder, FullText, Filter;
    var os, r := DrainOutcomes(c, s.queue, attempts), Drain(s, c, attempts);
    GatherCallbacks(os, id);
    assert Added(s, r) == Gather(os).packets;
    forall i | 0 <= i < |os|
      ensures id in os[i].callbacks <==>
                s.queue[i].row.msgId == id && exists p :: p in Added(s, r) && p.serial == s.queue[i].serial && FullText(p)
    {
      DrainShare(s, c, attempts, i);
      RowCallbacks(c, s.queue[i], attempts[i]);
      assert forall p :: p in os[i].packets <==> p in Added(s, r) && p.serial == s.queue[i].serial;
    }
  }

  lemma RowCallbacks(c: DrainCall, e: Entry, a: Attempt)
    ensures var o := DrainRow(c, e, a);
            o.callbacks == if exists p :: p in o.packets && FullText(p) then {e.row.msgId} else {}
  {
    hide QueueMatches, SendLink, Awaiting;
    var o := DrainRow(c, e, a);
    if o.packets != [] {
      assert o.packets[0] in o.packets;
    }
  }

  // ----- one group drain -----

  /** One group message over all its targets: at most one packet a target, each over the link filed for it. */
  lemma {:induction false} HubPacketIff(m: Moment, e: Entry, targets: seq<Hash>, fates: HubFates, at: Time, p: Packet)
    ensures p in HubPackets(m, e, targets, fates, at) <==>
              && p.peer in targets && p.peer != "" && !IsHubPeer(p.peer)
              && LinkForPeer(m.table, m.env, p.peer, None) == Some(p.link)
              && p.link !in fates.notSent
              && (p.link in fates.metadataOnly ==> e.row.size + 50 > Info(m.env, p.link).mtu)
              && p == Packet(e.serial, p.link, p.peer, at, p.link !in fates.metadataOnly, true, true, m)
    decreases |targets|
  {
    hide LinkForPeer;
    if targets != [] {
      HubPacketIff(m, e, targets[1..], fates, at, p);
    }
  }

  /** No two of the packets are for one peer. */
  ghost predicate OneEach(ps: seq<Packet>) {
    forall i, j :: 0 <= i < j < |ps| ==> ps[i].peer != ps[j].peer
  }

  lemma OneMore(ps: seq<Packet>, rest: seq<Packet>)
    requires OneEach(rest)
    requires ps == rest || (ps != [] && ps[1..] == rest && forall p :: p in rest ==> p.peer != ps[0].peer)
    ensures OneEach(ps)
  {
  }

  lemma {:induction false} HubPacketsInTurn(m: Moment, e: Entry, targets: seq<Hash>, fates: HubFates, at: Time)
    requires Distinct(targets)
    ensures OneEach(HubPackets(m, e, targets, fates, at))
    decreases |targets|
  {
    hide LinkForPeer, OneEach;
    if targets == [] {
      assert OneEach([]) by {
        OneMore([], []);
      }
    } else {
      HubPacketsInTurn(m, e, targets[1..], fates, at);
      var ps, rest := HubPackets(m, e, targets, fates, at), HubPackets(m, e, targets[1..], fates, at);
      forall p | p in rest
        ensures p.peer in targets[1..]
      {
        HubPacketIff(m, e, targets[1..], fates, at, p);
      }
      if |ps| == |rest| {
        assert ps == rest;
      } else {
        assert ps[0].peer == targets[0] && ps[1..] == rest;
      }
      OneMore(ps, rest);
    }
  }

  lemma HubShare(s: QState, m: Moment, targets: seq<Hash>, at: Time, fates: seq<HubFates>, i: nat)
    requires InOrder(s.queue, s.history) && |fates| == |s.queue| && i < |s.queue|
    ensures var r, o := AfterHub(s, m, targets, at, fates), HubRow(m, targets, s.queue[i], fates[i], at);
            && s.wire <= r.wire
            && (HubReady(m, targets, s.queue) ==>
                  PacketsOf(Added(s, r), s.queue[i].serial) == o.packets && HeldOf(r.queue, s.queue[i].serial) == o.kept)
            && (!HubReady(m, targets, s.queue) ==> r == s)
  {
    hide Gather, Filter, HubPackets, HubReady;
    if HubReady(m, targets, s.queue) {
      var os := HubOutcomes(m, targets, s.queue, fates, at);
      forall j | 0 <= j < |os|
        ensures Own(s.queue[j], os[j])
      {
        forall p | p in os[j].packets
          ensures p.serial == s.queue[j].serial
        {
          HubPacketIff(m, s.queue[j], targets, fates[j], at, p);
        }
      }
      GatherOne(s.queue, os, i);
      assert Added(s, AfterHub(s, m, targets, at, fates)) == Gather(os).packets;
    }
  }

  /** A group text goes to each target that has a link the radio takes it on, once, and leaves when one got it whole. */
  lemma HubTextIff(s: QState, m: Moment, targets: seq<Hash>, at: Time, fates: seq<HubFates>, i: nat, h: Hash, l: LinkId)
    requires InOrder(s.queue, s.history) && |fates| == |s.queue| && i < |s.queue| && HubReady(m, targets, s.queue)
    requires IsHubPeer(s.queue[i].row.target) && IsText(s.queue[i].row) && Distinct(targets)
    ensures var r, e := AfterHub(s, m, targets, at, fates), s.queue[i];
            s.wire <= r.wire &&
            var ps := PacketsOf(Added(s, r), e.serial);
            var filed := h in targets && h != "" && !IsHubPeer(h) && LinkForPeer(m.table, m.env, h, None) == Some(l);
            && OneEach(ps)
            && (Packet(e.serial, l, h, at, true, true, true, m) in ps <==>
                filed && l !in fates[i].notSent && l !in fates[i].metadataOnly)
            && (Packet(e.serial, l, h, at, false, true, true, m) in ps <==>
                filed && l !in fates[i].notSent && l in fates[i].metadataOnly && e.row.size + 50 > Info(m.env, l).mtu)
            && HeldOf(r.queue, e.serial) == if exists p :: p in ps && p.complete then [] else [e]
  {
    hide Gather, Filter, HubPackets, HubReady, AfterHub, LinkForPeer, OneEach;
    var e := s.queue[i];
    HubShare(s, m, targets, at, fates, i);
    HubPacketIff(m, e, targets, fates[i], at, Packet(e.serial, l, h, at, true, true, true, m));
    HubPacketIff(m, e, targets, fates[i], at, Packet(e.serial, l, h, at, false, true, true, m));
    HubPacketsInTurn(m, e, targets, fates[i], at);
    var sent := HubPackets(m, e, targets, fates[i], at);
    assert Filter(sent, IsComplete) == [] <==> !exists p :: p in sent && p.complete by {
      if Filter(sent, IsComplete) != [] {
        assert Filter(sent, IsComplete)[0] in Filter(sent, IsComplete);
      }
    }
  }

  /** Every other row of a group drain is left alone. */
  lemma HubOtherRows(s: QState, m: Moment, targets: seq<Hash>, at: Time, fates: seq<HubFates>, i: nat)
    requires InOrder(s.queue, s.history) && |fates| == |s.queue| && i < |s.queue|
    requires !(IsHubPeer(s.queue[i].row.target) && IsText(s.queue[i].row))
    ensures var r := AfterHub(s, m, targets, at, fates);
            s.wire <= r.wire && PacketsOf(Added(s, r), s.queue[i].serial) == [] && Survives(r.queue, s.queue[i])
  {
    hide Gather, HubReady, AfterHub;
    HubShare(s, m, targets, at, fates, i);
    var r, e := AfterHub(s, m, targets, at, fates), s.queue[i];
    assert e in [e];
    if HubReady(m, targets, s.queue) {
      assert e in HeldOf(r.queue, e.serial);
    }
  }

  lemma {:induction false} HubLinkedDistinct(t: Table, env: Env, keys: seq<LinkKey>, seen: seq<Hash>)
    requires Distinct(seen)
    ensures Distinct(HubLinkedPeers(t, env, keys, seen)) && seen <= HubLinkedPeers(t, env, keys, seen)
    decreases |keys|
  {
    if env.hubOn && keys != [] {
      var k := keys[0];
      var isNew := k.peer != "" && !IsHubPeer(k.peer) && k.peer !in seen
                   && k in t.byPeer.vals && Info(env, t.byPeer.vals[k]).hubTransport;
      HubLinkedDistinct(t, env, keys[1..], if isNew then seen + [k.peer] else seen);
    }
  }

  /** Whom a group message goes to: a server serves every peer of the hub, a client its server, if that is one of them,
      and one that names no server the first of them. */
  lemma HubTargetsIff(t: Table, env: Env, server: Hash, serverMode: bool, h: Hash)
    ensures var linked, targets := HubPeers(t, env), HubSendTargets(t, env, server, serverMode);
            && Distinct(targets)
            && (h in targets <==>
                  && h in linked
                  && (serverMode || (if server != "" then h == DestFor(t.aliases, server) && h != UNKNOWN else h == linked[0])))
  {
    hide DestFor, HubLinkedPeers;
    HubLinkedDistinct(t, env, t.byPeer.keys, []);
    HubPeersMeaning(t, env, h);
  }

  // ----- the other steps -----

  /** Which rows a drain or a clear for a target is about: one without a target only when none is named, the group's only
      for the group, anyone else's for a hash equivalent to the row's. */
  lemma MatchIff(t: Table, e: Entry, target: Hash)
    ensures var own := e.row.target;
            QueueMatches(t, e, target) <==>
              || own == target == ""
              || (&& own != "" && target != "" && (own == HUB_GROUP_PEER <==> target == HUB_GROUP_PEER)
                  && Equivalent(t.aliases, own, target))
  {
    hide Equivalent;
  }

  /** A row waits for its receipt for thirty seconds from its stamp; a stamp of zero counts as none. */
  lemma AwaitingIff(e: Entry, now: Time)
    ensures Awaiting(e, now) <==> exists at :: e.sentAt == Some(at) && at != 0.0 && now < at + 30.0
  {
  }

  /** A drain runs for any real peer that a link is found for, over that link, and otherwise leaves everything alone. */
  lemma DrainRunsIff(s: QState, t: Table, env: Env, hint: Option<LinkId>, target: Hash, includeFiles: bool, now: Time,
                     attempts: seq<Attempt>)
    requires |attempts| == |s.queue|
    ensures var peer := DestFor(t.aliases, target);
            var l := QueueSendLink(t, env, peer, hint);
            var r := Next(s, DrainPeer(t, env, hint, target, includeFiles, now, attempts));
            if peer == "" || peer == HUB_GROUP_PEER || l == None then r == s
            else r == Drain(s, DrainCall(t, env, peer, l.value, includeFiles, now), attempts)
  {
    hide Drain, QueueSendLink;
  }

  /** A group drain runs while some group row is queued and some target has an active link, and otherwise does nothing. */
  lemma HubRunsIff(m: Moment, targets: seq<Hash>, queue: seq<Entry>)
    ensures HubReady(m, targets, queue) <==>
              && (exists e :: e in queue && e.row.target == HUB_GROUP_PEER)
              && (exists h :: h in targets && PeerLinkActive(m.table, m.env, h))
  {
    hide PeerLinkActive;
    if e :| e in queue && e.row.target == HUB_GROUP_PEER {
      var i :| 0 <= i < |queue| && queue[i] == e;
      assert IsHubPeer(queue[i].row.target);
    }
    if i :| 0 <= i < |queue| && IsHubPeer(queue[i].row.target) {
      assert queue[i] in queue;
    }
  }

  /** What a step other than a drain does to the queue: a new id goes last, unsent; a receipt takes its id's row, a read
      receipt only while that id waits for one, a clear what matches or everything, a prune the ids named. */
  ghost predicate Stays(s: QState, step: Step, e: Entry)
    requires !step.DrainPeer? && !step.DrainHub?
  {
    match step
    case Enqueue(_) => true
    case Receipt(id) => id == "" || e.row.msgId != id
    case ReadReceipt(id) => id == "" || e.row.msgId != id || id !in s.callbacks
    case Clear(t, target) => target != "" && !QueueMatches(t, e, target)
    case Prune(ids) => e.row.msgId !in ids
  }

  lemma StepIff(s: QState, step: Step)
    requires !step.DrainPeer? && !step.DrainHub?
    ensures var r := Next(s, step);
            var isNew := step.Enqueue? && !exists e :: e in s.queue && e.row.msgId == step.row.msgId;
            && r.queue == Filter(s.queue, (e: Entry) => Stays(s, step, e))
                          + (if isNew then [Entry(step.row, |s.history|, None)] else [])
            && r.history == s.history + (if isNew then [step.row] else [])
            && r.callbacks == s.callbacks - (if step.Receipt? || step.ReadReceipt? then {step.msgId} else {})
            && r.wire == s.wire && r.clock == s.clock
  {
    hide QueueMatches, Filter;
    match step {
      case Enqueue(row) =>
        FilterAll(s.queue, (e: Entry) => Stays(s, step, e));
        QueuedIff(s.queue, row.msgId);
      case Receipt(id) => WithoutIdIs(s, step, s.queue, id);
      case ReadReceipt(id) =>
        if id in s.callbacks {
          WithoutIdIs(s, step, s.queue, id);
        } else {
          FilterAll(s.queue, (e: Entry) => Stays(s, step, e));
        }
      case Clear(t, target) =>
        if target == "" {
          FilterNone(s.queue, (e: Entry) => Stays(s, step, e));
        } else {
          FilterSame(s.queue, (e: Entry) => !QueueMatches(t, e, target), (e: Entry) => Stays(s, step, e));
        }
      case Prune(ids) => FilterSame(s.queue, (e: Entry) => e.row.msgId !in ids, (e: Entry) => Stays(s, step, e));
    }
  }

  lemma QueuedIff(q: seq<Entry>, id: string)
    ensures Queued(q, id) <==> exists e :: e in q && e.row.msgId == id
  {
    if e :| e in q && e.row.msgId == id {
      var i :| 0 <= i < |q| && q[i] == e;
    }
  }

  lemma WithoutIdIs(s: QState, step: Step, q: seq<Entry>, id: string)
    requires step == Receipt(id) || (step == ReadReceipt(id) && id in s.callbacks)
    ensures WithoutId(q, id) == Filter(q, (e: Entry) => Stays(s, step, e))
  {
    hide Filter;
    if id == "" {
      FilterAll(q, (e: Entry) => Stays(s, step, e));
    } else {
      FilterSame(q, (e: Entry) => e.row.msgId != id, (e: Entry) => Stays(s, step, e));
    }
  }
}
