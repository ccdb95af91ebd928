/** What every run of the outbound queue keeps. */
module QueueSafety {
  import opened Collections
  import opened Aliases
  import opened LinkChoice
  import opened OutboundQueue

  // ----- the invariant -----

  /** The queue is a subsequence of the enqueue history, unchanged but for its stamps. */
  ghost predicate InOrder(q: seq<Entry>, history: seq<Row>) {
    && (forall i, j :: 0 <= i < j < |q| ==> q[i].serial < q[j].serial)
    && (forall i :: 0 <= i < |q| ==> q[i].serial < |history| && q[i].row == history[q[i].serial])
  }

  ghost predicate IdsDistinct(q: seq<Entry>) {
    forall i, j :: 0 <= i < j < |q| ==> q[i].row.msgId != q[j].row.msgId
  }

  /** A packet went out over a link that was its target's own, in the target's zone, for a row of its kind. */
  ghost predicate Lawful(s: QState, p: Packet) {
    && p.serial < |s.history|
    && p.at <= s.clock
    && p.text == IsText(s.history[p.serial])
    && p.hub == IsHubPeer(s.history[p.serial].target)
    && (p.text && !p.complete ==> Long(p.moment.env, p.link, s.history[p.serial]))
    && (if p.hub then
          && p.peer in HubPeers(p.moment.table, p.moment.env)
          && Matches(p.moment.table, p.moment.env, p.link, DestFor(p.moment.table.aliases, p.peer))
        else
          && SafeFor(p.moment.table, p.moment.env, p.link, p.peer)
          && Equivalent(p.moment.table.aliases, s.history[p.serial].target, p.peer)
          && !IsHubPeer(p.peer))
  }

  /** A packet of a queued text row sent to its own peer: the whole text, or only its metadata. */
  predicate PeerText(p: Packet) {
    p.text && !p.hub
  }

  /** A full copy. */
  predicate FullText(p: Packet) {
    p.complete && PeerText(p)
  }

  /** After a full copy of a row nothing of it goes out again for the timeout. */
  ghost predicate Spaced(s: QState) {
    forall i, j :: 0 <= i < j < |s.wire| && FullText(s.wire[i]) && PeerText(s.wire[j])
                   && s.wire[i].serial == s.wire[j].serial ==>
                     s.wire[j].at - s.wire[i].at >= QUEUE_RECEIPT_TIMEOUT_S
  }

  /** A queued row remembers its last full transmission, unless that is already a timeout ago. */
  ghost predicate Remembers(e: Entry, p: Packet, clock: Time) {
    || (HasStamp(e) && p.at <= e.sentAt.value)
    || p.at + QUEUE_RECEIPT_TIMEOUT_S <= clock
  }

  ghost predicate Stamped(s: QState) {
    forall i, k :: 0 <= i < |s.queue| && 0 <= k < |s.wire| && FullText(s.wire[k])
                   && s.wire[k].serial == s.queue[i].serial ==>
                     Remembers(s.queue[i], s.wire[k], s.clock)
  }

  ghost predicate Inv(s: QState) {
    && s.clock > 0.0
    && InOrder(s.queue, s.history)
    && IdsDistinct(s.queue)
    && (forall k :: 0 <= k < |s.wire| ==> Lawful(s, s.wire[k]))
    && Spaced(s)
    && Stamped(s)
  }

  const EPOCH: Time := 1.0

  const EMPTY := QState([], [], [], {}, EPOCH)

  // ----- one row of a drain -----

  /** s once a loop has replaced row e of a + [e] + b by its outcome. */
  function Handled(s: QState, a: seq<Entry>, o: Outcome, b: seq<Entry>, clock: Time): QState {
    s.(queue := a + o.kept + b, wire := s.wire + o.packets, callbacks := s.callbacks + o.callbacks, clock := clock)
  }

  /** What Inv needs of one row's outcome: the row or nothing, and packets of that row that keep their distance. */
  ghost predicate Sound(s: QState, e: Entry, o: Outcome, clock: Time) {
    && (o.kept == [] || (|o.kept| == 1 && o.kept[0].serial == e.serial && o.kept[0].row == e.row))
    && (forall k :: 0 <= k < |o.packets| ==>
          o.packets[k].serial == e.serial && Lawful(s.(clock := clock), o.packets[k]))
    && (|o.packets| <= 1 || forall k :: 0 <= k < |o.packets| ==> !PeerText(o.packets[k]))
    && (forall k :: k in o.kept && |o.packets| == 1 && FullText(o.packets[0]) ==> Remembers(k, o.packets[0], clock))
    && (forall q :: q in s.wire && FullText(q) && q.serial == e.serial && Remembers(e, q, s.clock) ==>
          && (|o.packets| == 1 && PeerText(o.packets[0]) ==> o.packets[0].at - q.at >= QUEUE_RECEIPT_TIMEOUT_S)
          && (forall k :: k in o.kept ==> Remembers(k, q, clock)))
  }

  /** Every text row of q is still in r, stamps aside. */
  ghost predicate KeepsText(q: seq<Entry>, r: seq<Entry>) {
    forall e :: e in q && IsText(e.row) && !IsHubPeer(e.row.target) ==> Survives(r, e)
  }

  ghost predicate Survives(r: seq<Entry>, e: Entry) {
    exists k :: k in r && k.serial == e.serial && k.row == e.row
  }

  ghost predicate CallSafe(c: DrainCall) {
    && Consistent(c.table.aliases)
    && SafeFor(c.table, c.env, c.link, c.peer)
    && !IsHubPeer(c.peer)
    && c.peer == DestFor(c.table.aliases, c.peer)
  }

  lemma TextSound(c: DrainCall, s: QState, e: Entry, a: Attempt, l: Option<LinkId>)
    requires l.Some? ==> SafeFor(c.table, a.env, l.value, c.peer)
    requires c.now <= s.clock <= a.at <= a.stamp && 0.0 < s.clock && !IsHubPeer(c.peer) && c.peer != ""
    requires e.serial < |s.history| && e.row == s.history[e.serial] && IsText(e.row)
    requires QueueMatches(c.table, e, c.peer)
    ensures Sound(s, e, TextOutcome(c, e, a, l), a.stamp)
    ensures Survives(TextOutcome(c, e, a, l).kept, e)
  {
    hide SafeFor, Equivalent, DestFor;
    assert TextOutcome(c, e, a, l).kept[0] in TextOutcome(c, e, a, l).kept;
  }

  lemma FileSound(c: DrainCall, s: QState, e: Entry, a: Attempt)
    requires CallSafe(c) && s.clock <= a.at <= a.stamp
    requires e.serial < |s.history| && e.row == s.history[e.serial] && !IsText(e.row)
    requires QueueMatches(c.table, e, c.peer)
    ensures Sound(s, e, FileOutcome(c, e, a), a.stamp)
  {
  }

  lemma SendLinkSafeForCall(c: DrainCall, env: Env)
    requires CallSafe(c)
    ensures var l := SendLink(c.table, env, c.peer, Some(c.link)); l.Some? ==> SafeFor(c.table, env, l.value, c.peer)
  {
    if SendLink(c.table, env, c.peer, Some(c.link)).Some? {
      assert OutgoingPeer(c.table, c.peer) == c.peer;
      SendLinkSafe(c.table, env, c.peer, Some(c.link));
    }
  }

  lemma SafePeerNamed(c: DrainCall)
    requires CallSafe(c)
    ensures c.peer != ""
  {
  }

  lemma DrainRowSound(c: DrainCall, s: QState, e: Entry, a: Attempt)
    requires CallSafe(c) && c.now <= s.clock <= a.at <= a.stamp && 0.0 < s.clock
    requires e.serial < |s.history| && e.row == s.history[e.serial]
    ensures Sound(s, e, DrainRow(c, e, a), a.stamp)
    ensures IsText(e.row) ==> Survives(DrainRow(c, e, a).kept, e)
  {
    hide SendLink, SafeFor;
    if QueueMatches(c.table, e, c.peer) {
      if IsText(e.row) {
        SafePeerNamed(c);
        SendLinkSafeForCall(c, a.env);
        TextSound(c, s, e, a, SendLink(c.table, a.env, c.peer, Some(c.link)));
      } else if e.row.kind != OtherKind {
        FileSound(c, s, e, a);
      }
    } else {
      assert Survives([e], e);
    }
  }

  ghost predicate HubTargets(m: Moment, targets: seq<Hash>) {
    forall h :: h in targets ==> h in HubPeers(m.table, m.env)
  }

  /** The hub's peers are the real peers some link of the hub's transport is filed under, while a hub role is on. */
  lemma HubPeersMeaning(t: Table, env: Env, h: Hash)
    ensures h in HubPeers(t, env) <==>
              && env.hubOn && h != "" && !IsHubPeer(h)
              && exists k :: k in t.byPeer.vals && k.peer == h && Info(env, t.byPeer.vals[k]).hubTransport
  {
    HubLinkedMeaning(t, env, t.byPeer.keys, [], h);
    if k :| k in t.byPeer.vals && k.peer == h && Info(env, t.byPeer.vals[k]).hubTransport {
      assert k in t.byPeer.keys;
    }
  }

  lemma {:induction false} HubLinkedMeaning(t: Table, env: Env, keys: seq<LinkKey>, seen: seq<Hash>, h: Hash)
    ensures h in HubLinkedPeers(t, env, keys, seen) <==>
              || h in seen
              || (&& env.hubOn && h != "" && !IsHubPeer(h)
                  && exists k :: k in keys && k in t.byPeer.vals && k.peer == h && Info(env, t.byPeer.vals[k]).hubTransport)
    decreases |keys|
  {
    if env.hubOn && keys != [] {
      var k := keys[0];
      var isNew := k.peer != "" && !IsHubPeer(k.peer) && k.peer !in seen
                   && k in t.byPeer.vals && Info(env, t.byPeer.vals[k]).hubTransport;
      HubLinkedMeaning(t, env, keys[1..], if isNew then seen + [k.peer] else seen, h);
      assert forall x :: x in keys <==> x == k || x in keys[1..];
    }
  }

  lemma SendTargetsAreHubs(m: Moment, server: Hash, serverMode: bool)
    ensures HubTargets(m, HubSendTargets(m.table, m.env, server, serverMode))
  {
  }

  lemma HubPacketsLawful(m: Moment, e: Entry, targets: seq<Hash>, fates: HubFates, at: Time, s: QState)
    requires Consistent(m.table.aliases) && IsHubPeer(e.row.target) && IsText(e.row)
    requires e.serial < |s.history| && e.row == s.history[e.serial] && at <= s.clock
    requires HubTargets(m, targets)
    ensures forall p :: p in HubPackets(m, e, targets, fates, at) ==> p.serial == e.serial && p.hub && Lawful(s, p)
  {
    if targets != [] {
      HubPacketsLawful(m, e, targets[1..], fates, at, s);
    }
  }

  lemma HubRowSound(m: Moment, targets: seq<Hash>, s: QState, e: Entry, fates: HubFates, at: Time)
    requires Consistent(m.table.aliases) && s.clock <= at && HubTargets(m, targets)
    requires e.serial < |s.history| && e.row == s.history[e.serial]
    ensures Sound(s, e, HubRow(m, targets, e, fates, at), at)
    ensures !IsHubPeer(e.row.target) ==> Survives(HubRow(m, targets, e, fates, at).kept, e)
  {
    hide SafeFor, Matches, Equivalent, DestFor, HubPeers, HubPackets, HubTargets, Consistent, Filter;
    assert Survives([e], e);
    if IsHubPeer(e.row.target) && IsText(e.row) {
      HubPacketsLawful(m, e, targets, fates, at, s.(clock := at));
    }
  }

  lemma HandledInv(s: QState, a: seq<Entry>, e: Entry, b: seq<Entry>, o: Outcome, clock: Time)
    requires Inv(s) && s.queue == a + [e] + b && s.clock <= clock && Sound(s, e, o, clock)
    ensures Inv(Handled(s, a, o, b, clock))
  {
    var r := Handled(s, a, o, b, clock);
    assert s.queue[|a|] == e;
    HandledOrder(s, a, e, b, o, clock);
    forall k | 0 <= k < |r.wire|
      ensures Lawful(r, r.wire[k])
    {
      if k < |s.wire| {
        assert Lawful(s, s.wire[k]);
      }
    }
    HandledSpaced(s, a, e, b, o, clock);
    HandledStamped(s, a, e, b, o, clock);
  }

  /** Rows of the new queue are rows of the old one, up to stamps, at the same or a later place. */
  function OldPlace(a: seq<Entry>, o: Outcome, i: int): int {
    if i < |a| + |o.kept| then i else i + 1 - |o.kept|
  }

  lemma HandledOrder(s: QState, a: seq<Entry>, e: Entry, b: seq<Entry>, o: Outcome, clock: Time)
    requires InOrder(s.queue, s.history) && IdsDistinct(s.queue) && s.queue == a + [e] + b && Sound(s, e, o, clock)
    ensures InOrder(a + o.kept + b, s.history) && IdsDistinct(a + o.kept + b)
  {
    var r := Handled(s, a, o, b, clock);
    forall i | 0 <= i < |r.queue|
      ensures 0 <= OldPlace(a, o, i) < |s.queue|
      ensures r.queue[i].serial == s.queue[OldPlace(a, o, i)].serial && r.queue[i].row == s.queue[OldPlace(a, o, i)].row
    {
    }
  }

  lemma HandledSpaced(s: QState, a: seq<Entry>, e: Entry, b: seq<Entry>, o: Outcome, clock: Time)
    requires Spaced(s) && Stamped(s) && s.queue == a + [e] + b && s.queue[|a|] == e && Sound(s, e, o, clock)
    ensures Spaced(Handled(s, a, o, b, clock))
  {
    hide Lawful;
    var w := s.wire + o.packets;
    forall i, j | 0 <= i < j < |w| && FullText(w[i]) && PeerText(w[j]) && w[i].serial == w[j].serial
      ensures w[j].at - w[i].at >= QUEUE_RECEIPT_TIMEOUT_S
    {
      if j >= |s.wire| {
        assert w[j] == o.packets[j - |s.wire|];
        assert i < |s.wire|;
        assert s.wire[i] in s.wire && Remembers(s.queue[|a|], s.wire[i], s.clock);
      }
    }
  }

  lemma HandledStamped(s: QState, a: seq<Entry>, e: Entry, b: seq<Entry>, o: Outcome, clock: Time)
    requires InOrder(s.queue, s.history) && Stamped(s) && s.queue == a + [e] + b && s.queue[|a|] == e && s.clock <= clock
    requires Sound(s, e, o, clock)
    ensures Stamped(Handled(s, a, o, b, clock))
  {
    hide Lawful;
    var r := Handled(s, a, o, b, clock);
    forall i, k | 0 <= i < |r.queue| && 0 <= k < |r.wire| && FullText(r.wire[k]) && r.wire[k].serial == r.queue[i].serial
      ensures Remembers(r.queue[i], r.wire[k], clock)
    {
      var old_i := OldPlace(a, o, i);
      if |a| <= i < |a| + |o.kept| {
        assert r.queue[i] == o.kept[0] && r.queue[i] in o.kept;
        if k < |s.wire| {
          assert s.wire[k] in s.wire && Remembers(s.queue[|a|], s.wire[k], s.clock);
        }
      } else {
        assert r.queue[i] == s.queue[old_i] && old_i != |a|;
        assert s.queue[old_i].serial != e.serial;
        if k < |s.wire| {
          assert Remembers(s.queue[old_i], s.wire[k], s.clock);
        }
      }
    }
  }

  // ----- whole drains -----

  lemma InvRow(s: QState, i: int)
    requires Inv(s) && 0 <= i < |s.queue|
    ensures s.queue[i].serial < |s.history| && s.queue[i].row == s.history[s.queue[i].serial] && 0.0 < s.clock
  {
  }

  /** Every row's outcome, met in order, is sound for the state the loop has reached. */
  lemma {:induction false} DrainRowsInv(s: QState, a: seq<Entry>, rows: seq<Entry>, c: DrainCall, attempts: seq<Attempt>)
    requires Inv(s) && s.queue == a + rows && |attempts| == |rows|
    requires CallSafe(c) && c.now <= s.clock && Ordered(s.clock, attempts)
    ensures var o := Gather(DrainOutcomes(c, rows, attempts));
            Inv(Handled(s, a, o, [], EndTime(s.clock, attempts)))
    ensures KeepsText(a + rows, a + Gather(DrainOutcomes(c, rows, attempts)).kept)
    decreases |rows|
  {
    hide Inv, CallSafe, DrainRow, Sound, KeepsText, Survives;
    var os := DrainOutcomes(c, rows, attempts);
    if rows == [] {
      KeepsSelf(a);
      assert Handled(s, a, Gather(os), [], s.clock) == s;
    } else {
      var o := os[0];
      assert rows == [rows[0]] + rows[1..];
      assert s.queue == a + [rows[0]] + rows[1..];
      InvRow(s, |a|);
      DrainRowSound(c, s, rows[0], attempts[0]);
      HandledInv(s, a, rows[0], rows[1..], o, attempts[0].stamp);
      var mid := Handled(s, a, o, rows[1..], attempts[0].stamp);
      assert os[1..] == DrainOutcomes(c, rows[1..], attempts[1..]);
      DrainRowsInv(mid, a + o.kept, rows[1..], c, attempts[1..]);
      HandledTwice(s, a, os, rows[1..], attempts[0].stamp, EndTime(s.clock, attempts));
      KeepsTextStep(a, rows, o.kept, a + Gather(os).kept);
    }
  }

  lemma HandledTwice(s: QState, a: seq<Entry>, os: seq<Outcome>, b: seq<Entry>, t: Time, end: Time)
    requires os != []
    ensures var rest := Gather(os[1..]);
            Handled(Handled(s, a, os[0], b, t), a + os[0].kept, rest, [], end) == Handled(s, a, Gather(os), [], end)
    ensures (a + os[0].kept) + Gather(os[1..]).kept == a + Gather(os).kept
  {
    var rest := Gather(os[1..]);
    assert Gather(os) == Outcome(os[0].kept + rest.kept, os[0].packets + rest.packets, os[0].callbacks + rest.callbacks);
    hide Gather;
    Associate(a, os[0].kept, rest.kept);
    Associate(s.wire, os[0].packets, rest.packets);
    assert (s.callbacks + os[0].callbacks) + rest.callbacks == s.callbacks + (os[0].callbacks + rest.callbacks);
  }

  lemma KeepsSelf(a: seq<Entry>)
    ensures KeepsText(a + [], a + [])
  {
    forall e | e in a + []
      ensures Survives(a + [], e)
    {
    }
  }

  lemma KeepsTextStep(a: seq<Entry>, rows: seq<Entry>, kept: seq<Entry>, r: seq<Entry>)
    requires rows != []
    requires KeepsText(a + kept + rows[1..], r)
    requires IsText(rows[0].row) && !IsHubPeer(rows[0].row.target) ==> Survives(kept, rows[0])
    ensures KeepsText(a + rows, r)
  {
    forall e | e in a + rows && IsText(e.row) && !IsHubPeer(e.row.target)
      ensures Survives(r, e)
    {
      if e == rows[0] {
        var k :| k in kept && k.serial == e.serial && k.row == e.row;
        assert k in a + kept + rows[1..] && Survives(r, k);
      } else {
        assert e in a || e in rows[1..];
        assert e in a + kept + rows[1..];
      }
    }
  }

  lemma {:induction false} HubRowsInv(s: QState, a: seq<Entry>, rows: seq<Entry>, m: Moment, targets: seq<Hash>,
                                      fates: seq<HubFates>, at: Time)
    requires Inv(s) && s.queue == a + rows && |fates| == |rows| && s.clock <= at && Consistent(m.table.aliases)
    requires HubTargets(m, targets)
    ensures Inv(Handled(s, a, Gather(HubOutcomes(m, targets, rows, fates, at)), [], at))
    ensures KeepsText(a + rows, a + Gather(HubOutcomes(m, targets, rows, fates, at)).kept)
    decreases |rows|
  {
    hide Inv, Consistent, HubRow, Sound, KeepsText, Survives, HubTargets;
    var os := HubOutcomes(m, targets, rows, fates, at);
    if rows == [] {
      KeepsSelf(a);
      ClockForward(s, at);
      assert Handled(s, a, Gather(os), [], at) == s.(clock := at);
    } else {
      var o := os[0];
      assert rows == [rows[0]] + rows[1..];
      assert s.queue == a + [rows[0]] + rows[1..];
      InvRow(s, |a|);
      HubRowSound(m, targets, s, rows[0], fates[0], at);
      HandledInv(s, a, rows[0], rows[1..], o, at);
      var mid := Handled(s, a, o, rows[1..], at);
      assert os[1..] == HubOutcomes(m, targets, rows[1..], fates[1..], at);
      HubRowsInv(mid, a + o.kept, rows[1..], m, targets, fates[1..], at);
      HandledTwice(s, a, os, rows[1..], at, at);
      KeepsTextStep(a, rows, o.kept, a + Gather(os).kept);
    }
  }

  lemma ClockForward(s: QState, at: Time)
    requires Inv(s) && s.clock <= at
    ensures Inv(s.(clock := at))
  {
    var r := s.(clock := at);
    assert forall k :: 0 <= k < |s.wire| ==> Lawful(s, s.wire[k]);
    forall i, k | 0 <= i < |r.queue| && 0 <= k < |r.wire| && FullText(r.wire[k]) && r.wire[k].serial == r.queue[i].serial
      ensures Remembers(r.queue[i], r.wire[k], r.clock)
    {
      assert Remembers(s.queue[i], s.wire[k], s.clock);
    }
  }

  /** Dropping rows keeps the invariant. */
  lemma FilterInv(s: QState, p: Entry -> bool)
    requires Inv(s)
    ensures Inv(s.(queue := Filter(s.queue, p)))
  {
    hide SafeFor, Matches, Equivalent;
    var r := s.(queue := Filter(s.queue, p));
    FilterInOrder(s.queue, s.history, p);
    assert forall k :: 0 <= k < |s.wire| ==> Lawful(s, s.wire[k]);
    forall i, k | 0 <= i < |r.queue| && 0 <= k < |r.wire| && FullText(r.wire[k]) && r.wire[k].serial == r.queue[i].serial
      ensures Remembers(r.queue[i], r.wire[k], r.clock)
    {
      assert r.queue[i] in s.queue;
      var j :| 0 <= j < |s.queue| && s.queue[j] == r.queue[i];
      assert Remembers(s.queue[j], s.wire[k], s.clock);
    }
  }

  lemma InOrderTail(q: seq<Entry>, history: seq<Row>)
    requires InOrder(q, history) && IdsDistinct(q) && q != []
    ensures InOrder(q[1..], history) && IdsDistinct(q[1..])
    ensures q[0].serial < |history| && q[0].row == history[q[0].serial]
    ensures forall e :: e in q[1..] ==> q[0].serial < e.serial && q[0].row.msgId != e.row.msgId
  {
  }

  lemma InOrderCons(e: Entry, q: seq<Entry>, history: seq<Row>)
    requires InOrder(q, history) && IdsDistinct(q) && e.serial < |history| && e.row == history[e.serial]
    requires forall x :: x in q ==> e.serial < x.serial && e.row.msgId != x.row.msgId
    ensures InOrder([e] + q, history) && IdsDistinct([e] + q)
  {
  }

  lemma {:induction false} FilterInOrder(q: seq<Entry>, history: seq<Row>, p: Entry -> bool)
    requires InOrder(q, history) && IdsDistinct(q)
    ensures InOrder(Filter(q, p), history) && IdsDistinct(Filter(q, p))
    decreases |q|
  {
    hide InOrder, IdsDistinct;
    if q != [] {
      InOrderTail(q, history);
      FilterInOrder(q[1..], history, p);
      if p(q[0]) {
        InOrderCons(q[0], Filter(q[1..], p), history);
      }
    }
  }

  // ----- steps and runs -----

  lemma NextInv(s: QState, step: Step)
    requires Inv(s) && Fits(s, step)
    ensures Inv(Next(s, step))
  {
    hide Inv, Queued, DrainTo, AfterDrain, AfterHub, HubSendTargets, QueueMatches, CallSafe, Consistent, HubTargets;
    match step
    case Enqueue(row) =>
      EnqueueInv(s, row);
    case DrainPeer(t, env, hint, target, includeFiles, now, attempts) =>
      if DrainTo(t, env, hint, target, includeFiles, now).Some? {
        DrainToSafe(t, env, hint, target, includeFiles, now);
      }
      DrainInv(s, DrainTo(t, env, hint, target, includeFiles, now), now, attempts);
    case DrainHub(t, env, server, serverMode, at, fates) =>
      SendTargetsAreHubs(Moment(t, env), server, serverMode);
      HubInv(s, Moment(t, env), HubSendTargets(t, env, server, serverMode), at, fates);
    case Receipt(id) =>
      WithoutIdInv(s, id);
    case ReadReceipt(id) =>
      WithoutIdInv(s, id);
    case Clear(t, target) =>
      ClearInv(s, t, target);
    case Prune(ids) =>
      FilterInv(s, (e: Entry) => e.row.msgId !in ids);
  }

  lemma ClearInv(s: QState, t: Table, target: Hash)
    requires Inv(s)
    ensures Inv(Next(s, Clear(t, target)))
  {
    if target == "" {
      FilterInv(s, (e: Entry) => false);
      FilterNone(s.queue, (e: Entry) => false);
    } else {
      FilterInv(s, (e: Entry) => !QueueMatches(t, e, target));
    }
  }

  lemma WithoutIdInv(s: QState, id: string)
    requires Inv(s)
    ensures Inv(s.(queue := WithoutId(s.queue, id), callbacks := s.callbacks - {id}))
    ensures Inv(s.(callbacks := s.callbacks - {id}))
  {
    CallbacksInv(s, s.callbacks - {id});
    if id != "" {
      FilterInv(s.(callbacks := s.callbacks - {id}), (e: Entry) => e.row.msgId != id);
    }
  }

  lemma CallbacksInv(s: QState, cb: set<string>)
    requires Inv(s)
    ensures Inv(s.(callbacks := cb))
  {
    var r := s.(callbacks := cb);
    assert forall k :: 0 <= k < |s.wire| ==> Lawful(s, s.wire[k]) && Lawful(r, s.wire[k]);
    assert Stamped(r);
  }

  lemma HubGatherQuiet(m: Moment, targets: seq<Hash>, rows: seq<Entry>, fates: seq<HubFates>, at: Time)
    requires |fates| == |rows|
    ensures Gather(HubOutcomes(m, targets, rows, fates, at)).callbacks == {}
  {
    if rows != [] {
      assert HubOutcomes(m, targets, rows, fates, at)[1..] == HubOutcomes(m, targets, rows[1..], fates[1..], at);
      HubGatherQuiet(m, targets, rows[1..], fates[1..], at);
    }
  }

  lemma LawfulGrows(s: QState, r: QState, p: Packet)
    requires Lawful(s, p) && s.history <= r.history && s.clock <= r.clock
    ensures Lawful(r, p)
  {
    assert r.history[p.serial] == s.history[p.serial];
  }

  lemma EnqueueInv(s: QState, row: Row)
    requires Inv(s)
    ensures Inv(Next(s, Enqueue(row)))
  {
    if Queued(s.queue, row.msgId) {
      return;
    }
    var r := s.(queue := s.queue + [Entry(row, |s.history|, None)], history := s.history + [row]);
    assert r == Next(s, Enqueue(row)) && s.history <= r.history;
    forall k | 0 <= k < |r.wire|
      ensures Lawful(r, r.wire[k]) && r.wire[k].serial < |s.history|
    {
      LawfulGrows(s, r, s.wire[k]);
    }
    hide Lawful, Next, Queued;
    forall i, k | 0 <= i < |r.queue| && 0 <= k < |r.wire| && FullText(r.wire[k]) && r.wire[k].serial == r.queue[i].serial
      ensures Remembers(r.queue[i], r.wire[k], r.clock)
    {
      assert i < |s.queue| && Remembers(s.queue[i], s.wire[k], s.clock);
    }
  }

  lemma DrainToSafe(t: Table, env: Env, hint: Option<LinkId>, target: Hash, includeFiles: bool, now: Time)
    requires Consistent(t.aliases) && DrainTo(t, env, hint, target, includeFiles, now).Some?
    ensures CallSafe(DrainTo(t, env, hint, target, includeFiles, now).value)
    ensures DrainTo(t, env, hint, target, includeFiles, now).value.now == now
  {
    QueueSendLinkSafe(t, env, DestFor(t.aliases, target), hint);
  }

  lemma HandledWhole(s: QState, now: Time, o: Outcome, end: Time)
    ensures [] + o.kept == o.kept
    ensures Handled(s.(clock := now), [], o, [], end)
         == s.(queue := o.kept, wire := s.wire + o.packets, callbacks := s.callbacks + o.callbacks, clock := end)
  {
    assert [] + o.kept + [] == o.kept;
  }

  lemma DrainInv(s: QState, call: Option<DrainCall>, now: Time, attempts: seq<Attempt>)
    requires Inv(s) && |attempts| == |s.queue| && s.clock <= now && Ordered(now, attempts)
    requires call.Some? ==> CallSafe(call.value) && call.value.now == now
    ensures Inv(AfterDrain(s, call, attempts))
    ensures KeepsText(s.queue, AfterDrain(s, call, attempts).queue)
  {
    hide CallSafe, Inv, KeepsText, DrainRow, Handled, Gather;
    assert s.queue + [] == s.queue;
    KeepsSelf(s.queue);
    if call.Some? {
      ClockForward(s, now);
      var o := Gather(DrainOutcomes(call.value, s.queue, attempts));
      DrainRowsInv(s.(clock := now), [], s.queue, call.value, attempts);
      assert [] + s.queue == s.queue;
      HandledWhole(s, now, o, EndTime(now, attempts));
    }
  }

  lemma HubInv(s: QState, m: Moment, targets: seq<Hash>, at: Time, fates: seq<HubFates>)
    requires Inv(s) && |fates| == |s.queue| && s.clock <= at && Consistent(m.table.aliases)
    requires HubTargets(m, targets)
    ensures Inv(AfterHub(s, m, targets, at, fates))
    ensures KeepsText(s.queue, AfterHub(s, m, targets, at, fates).queue)
  {
    hide Inv, KeepsText, HubReady, HubRow, Consistent, Handled, Gather, HubTargets;
    assert s.queue + [] == s.queue;
    KeepsSelf(s.queue);
    if HubReady(m, targets, s.queue) {
      var o := Gather(HubOutcomes(m, targets, s.queue, fates, at));
      HubRowsInv(s, [], s.queue, m, targets, fates, at);
      HubGatherQuiet(m, targets, s.queue, fates, at);
      assert [] + s.queue == s.queue;
      HandledWhole(s, s.clock, o, at);
      assert s.(clock := s.clock) == s && s.callbacks + o.callbacks == s.callbacks;
    }
  }

  lemma {:induction false} RunInv(s: QState, steps: seq<Step>)
    requires Inv(s) && Runs(s, steps)
    ensures Inv(Run(s, steps))
    decreases |steps|
  {
    if steps != [] {
      NextInv(s, steps[0]);
      RunInv(Next(s, steps[0]), steps[1..]);
    }
  }

  // ----- main theorems -----

  /** Over any run the queue's ids stay distinct and its rows are enqueued rows in enqueue order. */
  lemma QueueStaysInOrder(steps: seq<Step>)
    requires Runs(EMPTY, steps)
    ensures var s := Run(EMPTY, steps); InOrder(s.queue, s.history) && IdsDistinct(s.queue)
  {
    RunInv(EMPTY, steps);
  }

  /** No cross-talk over any run: see Lawful. */
  lemma EveryPacketLawful(steps: seq<Step>, k: nat)
    requires Runs(EMPTY, steps) && k < |Run(EMPTY, steps).wire|
    ensures Lawful(Run(EMPTY, steps), Run(EMPTY, steps).wire[k])
  {
    RunInv(EMPTY, steps);
  }

  /** After a full transmission of a queued text row, nothing of that row goes out again before the receipt timeout. */
  lemma RetransmissionsSpaced(steps: seq<Step>, i: nat, j: nat)
    requires Runs(EMPTY, steps) && i < j < |Run(EMPTY, steps).wire|
    requires var w := Run(EMPTY, steps).wire; FullText(w[i]) && PeerText(w[j]) && w[i].serial == w[j].serial
    ensures var w := Run(EMPTY, steps).wire; w[j].at - w[i].at >= QUEUE_RECEIPT_TIMEOUT_S
  {
    RunInv(EMPTY, steps);
  }

  /** A text that fits one packet of the link it went out on is spaced, however that transmission ended. */
  lemma ShortTextsSpaced(steps: seq<Step>, i: nat, j: nat)
    requires Runs(EMPTY, steps) && i < j < |Run(EMPTY, steps).wire|
    requires var s := Run(EMPTY, steps);
             && PeerText(s.wire[i]) && PeerText(s.wire[j]) && s.wire[i].serial == s.wire[j].serial
             && (s.wire[i].serial < |s.history| ==> !Long(s.wire[i].moment.env, s.wire[i].link, s.history[s.wire[i].serial]))
    ensures var w := Run(EMPTY, steps).wire; w[j].at - w[i].at >= QUEUE_RECEIPT_TIMEOUT_S
  {
    EveryPacketLawful(steps, i);
    RetransmissionsSpaced(steps, i, j);
  }

  /** The steps that may take a row out of the queue. */
  predicate Releases(s: QState, step: Step, e: Entry) {
    || (step.Receipt? && step.msgId == e.row.msgId)
    || (step.ReadReceipt? && step.msgId == e.row.msgId && e.row.msgId in s.callbacks)
    || (step.Clear? && (step.target == "" || QueueMatches(step.table, e, step.target)))
    || (step.Prune? && e.row.msgId in step.ids)
  }

  /** A text row for a real peer survives every step that does not release it. */
  lemma TextSurvives(s: QState, step: Step, e: Entry)
    requires Inv(s) && Fits(s, step) && e in s.queue && IsText(e.row) && !IsHubPeer(e.row.target)
    requires !Releases(s, step, e)
    ensures Survives(Next(s, step).queue, e)
  {
    hide Inv, DrainTo, AfterDrain, AfterHub, HubSendTargets, CallSafe, Consistent, HubTargets;
    match step
    case DrainPeer(t, env, hint, target, includeFiles, now, attempts) =>
      if DrainTo(t, env, hint, target, includeFiles, now).Some? {
        DrainToSafe(t, env, hint, target, includeFiles, now);
      }
      DrainInv(s, DrainTo(t, env, hint, target, includeFiles, now), now, attempts);
    case DrainHub(t, env, server, serverMode, at, fates) =>
      SendTargetsAreHubs(Moment(t, env), server, serverMode);
      HubInv(s, Moment(t, env), HubSendTargets(t, env, server, serverMode), at, fates);
    case _ =>
      assert e in Next(s, step).queue;
  }

  /** A text row for a real peer leaves the queue only by its receipt, a clear that covers it, or a prune naming it. */
  lemma {:induction false} TextNeverLost(s: QState, steps: seq<Step>, e: Entry) returns (k: nat, held: Entry)
    requires Inv(s) && Runs(s, steps) && e in s.queue && IsText(e.row) && !IsHubPeer(e.row.target)
    requires !Survives(Run(s, steps).queue, e)
    ensures k < |steps| && Runs(s, steps[..k])
    ensures held.serial == e.serial && held.row == e.row && held in Run(s, steps[..k]).queue
    ensures Releases(Run(s, steps[..k]), steps[k], held)
    decreases |steps|
  {
    hide Inv, Next, Releases;
    if steps == [] {
      assert false;
    }
    if Releases(s, steps[0], e) {
      k, held := 0, e;
      assert steps[..0] == [];
    } else {
      TextSurvives(s, steps[0], e);
      NextInv(s, steps[0]);
      var next := Next(s, steps[0]);
      var e' :| e' in next.queue && e'.serial == e.serial && e'.row == e.row;
      assert !Survives(Run(next, steps[1..]).queue, e');
      var j, h := TextNeverLost(next, steps[1..], e');
      k, held := j + 1, h;
      assert steps[..k] == [steps[0]] + steps[1..][..j];
      assert steps[..k][0] == steps[0] && steps[..k][1..] == steps[1..][..j];
    }
  }

  /** A row enqueued without a target is never transmitted, although retry_queue looks for a peer to send it to. */
  lemma UntargetedNeverSent(steps: seq<Step>, k: nat)
    requires Runs(EMPTY, steps) && k < |Run(EMPTY, steps).wire|
    ensures var s := Run(EMPTY, steps);
            s.wire[k].serial < |s.history| && s.history[s.wire[k].serial].target != ""
  {
    EveryPacketLawful(steps, k);
  }

  /** A sent row is held back for the timeout exactly when the full text went out, not just its metadata. */
  lemma HeldBackIff(c: DrainCall, e: Entry, a: Attempt, l: LinkId, later: Time)
    requires !Awaiting(e, c.now) && TextFate(a.env, l, e.row, a.fate) != NotSent && 0.0 < a.stamp
    requires a.stamp <= later < a.stamp + QUEUE_RECEIPT_TIMEOUT_S
    ensures var kept := TextOutcome(c, e, a, Some(l)).kept;
            |kept| == 1 && (Awaiting(kept[0], later) <==> a.fate == Sent)
  {
  }
}
