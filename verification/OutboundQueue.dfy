/** The outbound message queue: enqueue, drain, receipts, clear and prune, one atomic step each. */
module OutboundQueue {
  import opened Collections
  import opened Aliases
  import opened LinkChoice

  type Time = real

  const QUEUE_RECEIPT_TIMEOUT_S: Time := 30.0

  datatype Kind = Text | Emoji | File | Image | Video | OtherKind

  /** What enqueue was given. target "" is a row with no target; path is the file path, or the content for text; size
      is how many bytes its message takes once encoded. */
  datatype Row = Row(kind: Kind, content: string, path: string, target: Hash, msgId: string, size: nat)

  /** A queued row. serial is its place in the enqueue history, the name the theorems know it by. */
  datatype Entry = Entry(row: Row, serial: nat, sentAt: Option<Time>)

  /** The link tables and environment at the moment a packet left. */
  datatype Moment = Moment(table: Table, env: Env)

  /** One transmission. complete is false when only a long text's metadata went out. */
  datatype Packet = Packet(serial: nat, link: LinkId, peer: Hash, at: Time, complete: bool, text: bool, hub: bool, moment: Moment)

  predicate IsComplete(p: Packet) {
    p.complete
  }

  /** How the radio side of one send ended. */
  datatype Fate = Sent | MetadataOnly | NotSent

  /** Only a text too long for one packet of the link goes out as metadata and a resource. */
  predicate Long(env: Env, l: LinkId, r: Row) {
    r.size > Info(env, l).mtu - 50
  }

  /** How a text fares on a link: a short one goes out whole or not at all. */
  function TextFate(env: Env, l: LinkId, r: Row, fate: Fate): Fate {
    if fate == MetadataOnly && !Long(env, l, r) then NotSent else fate
  }

  /** The environment's answer for one row of a drain. */
  datatype Attempt = Attempt(env: Env, fate: Fate, at: Time, stamp: Time, fileExists: bool)

  datatype QState = QState(queue: seq<Entry>, history: seq<Row>, wire: seq<Packet>, callbacks: set<string>, clock: Time)

  predicate IsText(r: Row) {
    r.kind == Text || r.kind == Emoji
  }

  /** A stamp of zero counts as none, as in the source. */
  predicate HasStamp(e: Entry) {
    e.sentAt.Some? && e.sentAt.value != 0.0
  }

  predicate Awaiting(e: Entry, now: Time) {
    HasStamp(e) && now - e.sentAt.value < QUEUE_RECEIPT_TIMEOUT_S
  }

  predicate QueueMatches(t: Table, e: Entry, target: Hash) {
    if e.row.target == "" then target == ""
    else
      && target != ""
      && IsHubPeer(e.row.target) == IsHubPeer(target)
      && Equivalent(t.aliases, e.row.target, target)
  }

  // ----- one drain -----

  datatype DrainCall = DrainCall(table: Table, env: Env, peer: Hash, link: LinkId, includeFiles: bool, now: Time)

  /** What one row of the drain loop leaves: the row kept (if any), packets sent, callbacks registered. */
  datatype Outcome = Outcome(kept: seq<Entry>, packets: seq<Packet>, callbacks: set<string>)

  /** A text row, given the link send_message settles on. */
  function TextOutcome(c: DrainCall, e: Entry, a: Attempt, l: Option<LinkId>): Outcome {
    if Awaiting(e, c.now) then Outcome([e], [], {})
    else
      var cleared := if HasStamp(e) then e.(sentAt := None) else e;
      if l.None? then Outcome([cleared], [], {})
      else
        var fate := TextFate(a.env, l.value, e.row, a.fate);
        var p := Packet(e.serial, l.value, c.peer, a.at, fate == Sent, true, false, Moment(c.table, a.env));
        match fate
        case NotSent => Outcome([cleared], [], {})
        case MetadataOnly => Outcome([cleared], [p], {})
        case Sent => Outcome([e.(sentAt := Some(a.stamp))], [p], {e.row.msgId})
  }

  function FileOutcome(c: DrainCall, e: Entry, a: Attempt): Outcome {
    if !c.includeFiles then Outcome([e], [], {})
    else if !a.fileExists then Outcome([], [], {})
    else if !IsActive(a.env, c.link) || a.fate == NotSent then Outcome([e], [], {})
    else
      var p := Packet(e.serial, c.link, c.peer, a.at, a.fate == Sent, false, false, Moment(c.table, c.env));
      Outcome(if a.fate == Sent then [] else [e], [p], {})
  }

  function DrainRow(c: DrainCall, e: Entry, a: Attempt): Outcome {
    if !QueueMatches(c.table, e, c.peer) then Outcome([e], [], {})
    else match e.row.kind
      case Text | Emoji => TextOutcome(c, e, a, SendLink(c.table, a.env, c.peer, Some(c.link)))
      case File | Image | Video => FileOutcome(c, e, a)
      case OtherKind => Outcome([], [], {})
  }

  lemma DrainRowSingle(c: DrainCall, e: Entry, a: Attempt)
    ensures var ps := DrainRow(c, e, a).packets;
            |ps| <= 1 && |Filter(ps, IsComplete)| == if |ps| > 0 && ps[0].complete then 1 else 0
  {
    hide SendLink, QueueMatches;
    var ps := DrainRow(c, e, a).packets;
    if ps != [] {
      assert ps == [ps[0]] && ps[1..] == [];
    }
  }

  /** A loop's outcomes put together in row order. */
  function Gather(os: seq<Outcome>): Outcome {
    if os == [] then Outcome([], [], {})
    else
      var rest := Gather(os[1..]);
      Outcome(os[0].kept + rest.kept, os[0].packets + rest.packets, os[0].callbacks + rest.callbacks)
  }

  lemma GatherSnoc(os: seq<Outcome>, o: Outcome)
    ensures var g := Gather(os);
            Gather(os + [o]) == Outcome(g.kept + o.kept, g.packets + o.packets, g.callbacks + o.callbacks)
  {
    if os == [] {
      assert [o][1..] == [];
      assert Gather([o]) == Outcome(o.kept + [], o.packets + [], o.callbacks + {});
    } else {
      assert (os + [o])[1..] == os[1..] + [o];
      GatherSnoc(os[1..], o);
      var g := Gather(os[1..]);
      assert os[0].kept + (g.kept + o.kept) == (os[0].kept + g.kept) + o.kept;
      assert os[0].packets + (g.packets + o.packets) == (os[0].packets + g.packets) + o.packets;
    }
  }

  function DrainOutcomes(c: DrainCall, rows: seq<Entry>, attempts: seq<Attempt>): (os: seq<Outcome>)
    requires |attempts| == |rows|
    ensures |os| == |rows| && forall i :: 0 <= i < |os| ==> os[i] == DrainRow(c, rows[i], attempts[i])
  {
    seq(|rows|, i requires 0 <= i < |rows| => DrainRow(c, rows[i], attempts[i]))
  }

  /** The call drain_queue makes, None when it refuses before looking at the queue. */
  function DrainTo(t: Table, env: Env, hint: Option<LinkId>, target: Hash, includeFiles: bool, now: Time): Option<DrainCall> {
    var peer := DestFor(t.aliases, target);
    if peer == "" || IsHubPeer(peer) then None
    else
      var l := QueueSendLink(t, env, peer, hint);
      if l.None? then None else Some(DrainCall(t, env, peer, l.value, includeFiles, now))
  }

  function EndTime(start: Time, attempts: seq<Attempt>): Time {
    if attempts == [] then start else attempts[|attempts| - 1].stamp
  }

  function Drain(s: QState, c: DrainCall, attempts: seq<Attempt>): QState
    requires |attempts| == |s.queue|
  {
    var o := Gather(DrainOutcomes(c, s.queue, attempts));
    s.(queue := o.kept, wire := s.wire + o.packets, callbacks := s.callbacks + o.callbacks,
       clock := EndTime(c.now, attempts))
  }

  // ----- the hub's group queue -----

  /** _hub_tcp_linked_peers over keys, with the peers already seen. */
  function HubLinkedPeers(t: Table, env: Env, keys: seq<LinkKey>, seen: seq<Hash>): seq<Hash> {
    if !env.hubOn || keys == [] then seen
    else
      var k := keys[0];
      var isNew := k.peer != "" && !IsHubPeer(k.peer) && k.peer !in seen
                   && k in t.byPeer.vals && Info(env, t.byPeer.vals[k]).hubTransport;
      HubLinkedPeers(t, env, keys[1..], if isNew then seen + [k.peer] else seen)
  }

  function HubPeers(t: Table, env: Env): seq<Hash> {
    HubLinkedPeers(t, env, t.byPeer.keys, [])
  }

  function HubSendTargets(t: Table, env: Env, server: Hash, serverMode: bool): seq<Hash> {
    var linked := HubPeers(t, env);
    var peer := DestFor(t.aliases, server);
    if serverMode then linked
    else if server != "" then (if !Unresolved(peer) && peer in linked then [peer] else [])
    else if linked == [] then [] else linked[..1]
  }

  /** How the radio side of one group message went, link by link; every other link took it whole. */
  datatype HubFates = HubFates(notSent: set<LinkId>, metadataOnly: set<LinkId>)

  function HubFate(m: Moment, e: Entry, fates: HubFates, l: LinkId): Fate {
    TextFate(m.env, l, e.row,
             if l in fates.notSent then NotSent else if l in fates.metadataOnly then MetadataOnly else Sent)
  }

  /** Packets one group message sends: one per target with a link the radio accepts. */
  function HubPackets(m: Moment, e: Entry, targets: seq<Hash>, fates: HubFates, at: Time): seq<Packet> {
    if targets == [] then []
    else
      var l := LinkForPeer(m.table, m.env, targets[0], None);
      (if targets[0] == "" || IsHubPeer(targets[0]) || l.None? || HubFate(m, e, fates, l.value) == NotSent then []
       else [Packet(e.serial, l.value, targets[0], at, HubFate(m, e, fates, l.value) == Sent, true, true, m)])
      + HubPackets(m, e, targets[1..], fates, at)
  }

  function HubRow(m: Moment, targets: seq<Hash>, e: Entry, fates: HubFates, at: Time): Outcome {
    if !IsHubPeer(e.row.target) || !IsText(e.row) then Outcome([e], [], {})
    else
      var sent := HubPackets(m, e, targets, fates, at);
      Outcome(if Filter(sent, IsComplete) == [] then [e] else [], sent, {})
  }

  function HubOutcomes(m: Moment, targets: seq<Hash>, rows: seq<Entry>, fates: seq<HubFates>, at: Time): (os: seq<Outcome>)
    requires |fates| == |rows|
    ensures |os| == |rows| && forall i :: 0 <= i < |os| ==> os[i] == HubRow(m, targets, rows[i], fates[i], at)
  {
    seq(|rows|, i requires 0 <= i < |rows| => HubRow(m, targets, rows[i], fates[i], at))
  }

  predicate HubReady(m: Moment, targets: seq<Hash>, queue: seq<Entry>) {
    && (exists i :: 0 <= i < |queue| && IsHubPeer(queue[i].row.target))
    && (exists i :: 0 <= i < |targets| && PeerLinkActive(m.table, m.env, targets[i]))
  }

  // ----- the state machine -----

  datatype Step =
    | Enqueue(row: Row)
    | DrainPeer(table: Table, env: Env, hint: Option<LinkId>, target: Hash, includeFiles: bool, now: Time,
                attempts: seq<Attempt>)
    | DrainHub(table: Table, env: Env, server: Hash, serverMode: bool, at: Time, fates: seq<HubFates>)
    | Receipt(msgId: string)
    | ReadReceipt(msgId: string)
    | Clear(table: Table, target: Hash)
    | Prune(ids: set<string>)

  function WithoutId(q: seq<Entry>, id: string): seq<Entry> {
    if id == "" then q else Filter(q, (e: Entry) => e.row.msgId != id)
  }

  predicate Queued(q: seq<Entry>, id: string) {
    exists i :: 0 <= i < |q| && q[i].row.msgId == id
  }

  /** The environment fits the state: one answer per row, and time only moves forward. */
  ghost predicate Fits(s: QState, step: Step) {
    match step
    case DrainPeer(t, _, _, _, _, now, attempts) =>
      Consistent(t.aliases) && |attempts| == |s.queue| && s.clock <= now && Ordered(now, attempts)
    case DrainHub(t, _, _, _, at, fates) =>
      Consistent(t.aliases) && |fates| == |s.queue| && s.clock <= at
    case _ => true
  }

  ghost predicate Ordered(start: Time, attempts: seq<Attempt>)
    decreases |attempts|
  {
    attempts != [] ==>
      start <= attempts[0].at <= attempts[0].stamp && Ordered(attempts[0].stamp, attempts[1..])
  }

  function AfterDrain(s: QState, call: Option<DrainCall>, attempts: seq<Attempt>): QState
    requires |attempts| == |s.queue|
  {
    match call
    case None => s
    case Some(c) => Drain(s, c, attempts)
  }

  function AfterHub(s: QState, m: Moment, targets: seq<Hash>, at: Time, fates: seq<HubFates>): QState
    requires |fates| == |s.queue|
  {
    if !HubReady(m, targets, s.queue) then s
    else
      var o := Gather(HubOutcomes(m, targets, s.queue, fates, at));
      s.(queue := o.kept, wire := s.wire + o.packets, clock := at)
  }

  function Next(s: QState, step: Step): QState
    requires step.DrainPeer? ==> |step.attempts| == |s.queue|
    requires step.DrainHub? ==> |step.fates| == |s.queue|
  {
    match step
    case Enqueue(row) =>
      if Queued(s.queue, row.msgId) then s
      else s.(queue := s.queue + [Entry(row, |s.history|, None)], history := s.history + [row])
    case DrainPeer(t, env, hint, target, includeFiles, now, attempts) =>
      AfterDrain(s, DrainTo(t, env, hint, target, includeFiles, now), attempts)
    case DrainHub(t, env, server, serverMode, at, fates) =>
      AfterHub(s, Moment(t, env), HubSendTargets(t, env, server, serverMode), at, fates)
    case Receipt(id) => s.(queue := WithoutId(s.queue, id), callbacks := s.callbacks - {id})
    case ReadReceipt(id) =>
      s.(queue := if id in s.callbacks then WithoutId(s.queue, id) else s.queue, callbacks := s.callbacks - {id})
    case Clear(t, target) =>
      s.(queue := if target == "" then [] else Filter(s.queue, (e: Entry) => !QueueMatches(t, e, target)))
    case Prune(ids) =>
      s.(queue := Filter(s.queue, (e: Entry) => e.row.msgId !in ids))
  }

  ghost predicate Runs(s: QState, steps: seq<Step>)
    decreases |steps|
  {
    steps != [] ==> Fits(s, steps[0]) && Runs(Next(s, steps[0]), steps[1..])
  }

  ghost function Run(s: QState, steps: seq<Step>): QState
    requires Runs(s, steps)
    decreases |steps|
  {
    if steps == [] then s else Run(Next(s, steps[0]), steps[1..])
  }

  /** The loop of drain_queue: rows left, callbacks registered and completed sends so far. */
  method DrainLoop(c: DrainCall, rows: seq<Entry>, attempts: seq<Attempt>, callbacks: set<string>)
    returns (remaining: seq<Entry>, registered: set<string>, sent: nat, ghost packets: seq<Packet>)
    requires |attempts| == |rows|
    ensures var o := Gather(DrainOutcomes(c, rows, attempts));
            remaining == o.kept && registered == callbacks + o.callbacks
    ensures packets == Gather(DrainOutcomes(c, rows, attempts)).packets
    ensures sent == |Filter(packets, IsComplete)|
  {
    hide DrainRow;
    remaining, registered, sent, packets := [], callbacks, 0, [];
    ghost var os := DrainOutcomes(c, rows, attempts);
    for i := 0 to |rows|
      invariant var o := Gather(os[..i]);
                && remaining == o.kept && registered == callbacks + o.callbacks && packets == o.packets
      invariant sent == |Filter(packets, IsComplete)|
    {
      var o := DrainRow(c, rows[i], attempts[i]);
      assert os[..i + 1] == os[..i] + [o];
      GatherSnoc(os[..i], o);
      DrainRowSingle(c, rows[i], attempts[i]);
      FilterAppend(packets, o.packets, IsComplete);
      remaining, registered, packets := remaining + o.kept, registered + o.callbacks, packets + o.packets;
      if |o.packets| > 0 && o.packets[0].complete {
        sent := sent + 1;
      }
    }
    assert os[..|rows|] == os;
  }

  /** The loop of drain_hub_group_queue. */
  method HubLoop(m: Moment, targets: seq<Hash>, rows: seq<Entry>, fates: seq<HubFates>, at: Time)
    returns (remaining: seq<Entry>, ghost packets: seq<Packet>)
    requires |fates| == |rows|
    ensures remaining == Gather(HubOutcomes(m, targets, rows, fates, at)).kept
    ensures packets == Gather(HubOutcomes(m, targets, rows, fates, at)).packets
  {
    hide HubRow;
    remaining, packets := [], [];
    ghost var os := HubOutcomes(m, targets, rows, fates, at);
    for i := 0 to |rows|
      invariant var o := Gather(os[..i]); remaining == o.kept && packets == o.packets
    {
      var o := HubRow(m, targets, rows[i], fates[i], at);
      assert os[..i + 1] == os[..i] + [o];
      GatherSnoc(os[..i], o);
      remaining, packets := remaining + o.kept, packets + o.packets;
    }
    assert os[..|rows|] == os;
  }

  /** The backend's queue and receipt callbacks. history, wire and clock record the run for the theorems. */
  class MessageQueue {
    var messageQueue: seq<Entry>
    var receiptCallbacks: set<string>
    /** Rows accepted so far: the next row's serial. */
    var enqueued: nat
    ghost var history: seq<Row>
    ghost var wire: seq<Packet>
    ghost var clock: Time

    ghost function State(): QState
      reads this
    {
      QState(messageQueue, history, wire, receiptCallbacks, clock)
    }

    ghost predicate Valid()
      reads this
    {
      enqueued == |history|
    }

    constructor (ghost start: Time)
      ensures Valid() && State() == QState([], [], [], {}, start)
    {
      messageQueue, receiptCallbacks, enqueued := [], {}, 0;
      history, wire, clock := [], [], start;
    }

    method EnqueueRow(row: Row)
      requires Valid()
      modifies this
      ensures Valid() && State() == Next(old(State()), Enqueue(row))
    {
      for i := 0 to |messageQueue|
        invariant forall j :: 0 <= j < i ==> messageQueue[j].row.msgId != row.msgId
        invariant State() == old(State())
      {
        if messageQueue[i].row.msgId == row.msgId {
          return;
        }
      }
      messageQueue := messageQueue + [Entry(row, enqueued, None)];
      history, enqueued := history + [row], enqueued + 1;
    }

    method DrainQueue(t: Table, env: Env, hint: Option<LinkId>, target: Hash, includeFiles: bool, now: Time,
                      attempts: seq<Attempt>) returns (sent: nat)
      requires |attempts| == |messageQueue|
      modifies `messageQueue, `receiptCallbacks, `wire, `clock
      ensures State() == Next(old(State()), DrainPeer(t, env, hint, target, includeFiles, now, attempts))
      ensures old(wire) <= wire && sent == |Filter(wire[|old(wire)|..], IsComplete)|
    {
      hide QueueSendLink, DrainOutcomes, Gather;
      sent := 0;
      var call := DrainTo(t, env, hint, target, includeFiles, now);
      if call.Some? {
        ghost var packets;
        messageQueue, receiptCallbacks, sent, packets := DrainLoop(call.value, messageQueue, attempts, receiptCallbacks);
        wire, clock := wire + packets, EndTime(now, attempts);
        assert wire[|old(wire)|..] == packets;
      }
    }

    method DrainHubGroupQueue(t: Table, env: Env, server: Hash, serverMode: bool, at: Time, fates: seq<HubFates>)
      requires |fates| == |messageQueue|
      modifies `messageQueue, `wire, `clock
      ensures State() == Next(old(State()), DrainHub(t, env, server, serverMode, at, fates))
    {
      hide HubReady, HubSendTargets, HubOutcomes, Gather;
      var m, targets := Moment(t, env), HubSendTargets(t, env, server, serverMode);
      if HubReady(m, targets, messageQueue) {
        ghost var packets;
        messageQueue, packets := HubLoop(m, targets, messageQueue, fates, at);
        wire, clock := wire + packets, at;
      }
    }

    method OnReceipt(id: string)
      modifies `messageQueue, `receiptCallbacks
      ensures State() == Next(old(State()), Receipt(id))
    {
      messageQueue := WithoutId(messageQueue, id);
      receiptCallbacks := receiptCallbacks - {id};
    }

    method OnReadReceipt(id: string)
      modifies `messageQueue, `receiptCallbacks
      ensures State() == Next(old(State()), ReadReceipt(id))
    {
      if id in receiptCallbacks {
        messageQueue := WithoutId(messageQueue, id);
      }
      receiptCallbacks := receiptCallbacks - {id};
    }

    method ClearQueue(t: Table, target: Hash)
      modifies `messageQueue
      ensures State() == Next(old(State()), Clear(t, target))
    {
      if target == "" {
        messageQueue := [];
      } else {
        messageQueue := Filter(messageQueue, (e: Entry) => !QueueMatches(t, e, target));
      }
    }

    /** Returns how many rows were dropped. */
    method PruneStaleQueue(ids: set<string>) returns (dropped: nat)
      modifies `messageQueue
      ensures State() == Next(old(State()), Prune(ids))
      ensures dropped == old(|messageQueue|) - |messageQueue|
    {
      hide AfterDrain, AfterHub, DrainTo, HubSendTargets, Queued, WithoutId, QueueMatches, Filter;
      var before := |messageQueue|;
      if ids == {} {
        FilterAll(messageQueue, (e: Entry) => e.row.msgId !in ids);
        return 0;
      }
      messageQueue := Filter(messageQueue, (e: Entry) => e.row.msgId !in ids);
      dropped := before - |messageQueue|;
    }
  }
}
