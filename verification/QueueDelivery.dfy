/** What one drain of the outbound queue does to each row: exactly which rows go out and which leave. */
module QueueDelivery {
  import opened Collections
  import opened LinkChoice
  import opened OutboundQueue
  import opened QueueSafety

  // ----- what a loop gathers -----

  lemma {:induction false} GatherHas(os: seq<Outcome>, i: nat)
    requires i < |os|
    ensures var g := Gather(os);
            && (forall k :: k in os[i].kept ==> k in g.kept)
            && (forall p :: p in os[i].packets ==> p in g.packets)
            && os[i].callbacks <= g.callbacks
    decreases |os|
  {
    if i > 0 {
      GatherHas(os[1..], i - 1);
    }
  }

  lemma {:induction false} GatherKeptFrom(os: seq<Outcome>, k: Entry) returns (i: nat)
    requires k in Gather(os).kept
    ensures i < |os| && k in os[i].kept
    decreases |os|
  {
    if k in os[0].kept {
      i := 0;
    } else {
      var j := GatherKeptFrom(os[1..], k);
      i := j + 1;
    }
  }

  lemma {:induction false} GatherPacketFrom(os: seq<Outcome>, p: Packet) returns (i: nat)
    requires p in Gather(os).packets
    ensures i < |os| && p in os[i].packets
    decreases |os|
  {
    if p in os[0].packets {
      i := 0;
    } else {
      var j := GatherPacketFrom(os[1..], p);
      i := j + 1;
    }
  }

  // ----- one row -----

  /** A row's outcome names no row but its own. */
  lemma OutcomeIsOwn(c: DrainCall, e: Entry, a: Attempt)
    ensures var o := DrainRow(c, e, a);
            && (forall k :: k in o.kept ==> k.serial == e.serial && k.row == e.row)
            && (forall p :: p in o.packets ==> p.serial == e.serial)
  {
    hide SendLink, QueueMatches;
  }

  /** A file row is done with: its file is gone, or was sent over a live link. */
  predicate FileDone(c: DrainCall, a: Attempt) {
    c.includeFiles && (!a.fileExists || (IsActive(a.env, c.link) && a.fate == Sent))
  }

  /** Which rows one drain takes out of the queue: never text, files once done with, rows of unknown kind always. */
  predicate Leaves(c: DrainCall, e: Entry, a: Attempt) {
    QueueMatches(c.table, e, c.peer) && !IsText(e.row) && (e.row.kind == OtherKind || FileDone(c, a))
  }

  /** Which text rows go out in full, and over which link. */
  predicate Transmits(c: DrainCall, e: Entry, a: Attempt, l: LinkId) {
    && IsText(e.row)
    && QueueMatches(c.table, e, c.peer)
    && !Awaiting(e, c.now)
    && SendLink(c.table, a.env, c.peer, Some(c.link)) == Some(l)
    && a.fate == Sent
  }

  lemma RowKept(c: DrainCall, e: Entry, a: Attempt)
    ensures DrainRow(c, e, a).kept == [] <==> Leaves(c, e, a)
  {
    hide SendLink, QueueMatches;
  }

  lemma RowSent(c: DrainCall, e: Entry, a: Attempt, l: LinkId)
    ensures (exists p :: p in DrainRow(c, e, a).packets && FullText(p) && p.link == l) <==> Transmits(c, e, a, l)
    ensures Transmits(c, e, a, l) ==> HeldAndStamped(DrainRow(c, e, a), e, a)
  {
    hide SendLink, QueueMatches, Awaiting, HasStamp;
    var o := DrainRow(c, e, a);
    if Transmits(c, e, a, l) {
      assert o.packets[0] in o.packets && o.kept[0] in o.kept;
    }
  }

  /** The row is held with the time it was sent, and its id waits for a read receipt. */
  ghost predicate HeldAndStamped(o: Outcome, e: Entry, a: Attempt) {
    e.(sentAt := Some(a.stamp)) in o.kept && e.row.msgId in o.callbacks
  }

  // ----- a whole drain -----

  lemma SerialNamesRow(s: QState, i: nat, j: nat)
    requires InOrder(s.queue, s.history) && i < |s.queue| && j < |s.queue| && s.queue[i].serial == s.queue[j].serial
    ensures i == j
  {
  }

  /** A row leaves in a drain exactly when Leaves says so. */
  lemma DrainRemovesIff(s: QState, c: DrainCall, attempts: seq<Attempt>, i: nat)
    requires InOrder(s.queue, s.history) && |attempts| == |s.queue| && i < |s.queue|
    ensures Survives(Drain(s, c, attempts).queue, s.queue[i]) <==> !Leaves(c, s.queue[i], attempts[i])
  {
    hide DrainRow, Leaves, InOrder, Gather;
    var os := DrainOutcomes(c, s.queue, attempts);
    var r := Drain(s, c, attempts).queue;
    var e := s.queue[i];
    RowKept(c, e, attempts[i]);
    OutcomeIsOwn(c, e, attempts[i]);
    if !Leaves(c, e, attempts[i]) {
      GatherHas(os, i);
      assert os[i].kept[0] in os[i].kept && os[i].kept[0] in r;
    } else if Survives(r, e) {
      var k :| k in r && k.serial == e.serial && k.row == e.row;
      var j := GatherKeptFrom(os, k);
      OutcomeIsOwn(c, s.queue[j], attempts[j]);
      SerialNamesRow(s, i, j);
      assert false;
    }
  }

  /** A drain puts a full copy of a text row on a link exactly when Transmits says so, and then keeps the row,
      stamped, until its receipt. */
  lemma DrainSendsIff(s: QState, c: DrainCall, attempts: seq<Attempt>, i: nat, l: LinkId)
    requires InOrder(s.queue, s.history) && |attempts| == |s.queue| && i < |s.queue|
    ensures var r := Drain(s, c, attempts);
            var e := s.queue[i];
            && |s.wire| <= |r.wire|
            && ((exists p :: p in r.wire[|s.wire|..] && FullText(p) && p.link == l && p.serial == e.serial)
                <==> Transmits(c, e, attempts[i], l))
            && (Transmits(c, e, attempts[i], l) ==>
                  e.(sentAt := Some(attempts[i].stamp)) in r.queue && e.row.msgId in r.callbacks)
  {
    hide DrainRow, Transmits, InOrder, Gather, FullText;
    var os := DrainOutcomes(c, s.queue, attempts);
    var r := Drain(s, c, attempts);
    var e := s.queue[i];
    assert r.wire[|s.wire|..] == Gather(os).packets;
    RowSent(c, e, attempts[i], l);
    OutcomeIsOwn(c, e, attempts[i]);
    GatherHas(os, i);
    if p :| p in Gather(os).packets && FullText(p) && p.link == l && p.serial == e.serial {
      var j := GatherPacketFrom(os, p);
      OutcomeIsOwn(c, s.queue[j], attempts[j]);
      SerialNamesRow(s, i, j);
    }
    if Transmits(c, e, attempts[i], l) {
      assert HeldAndStamped(os[i], e, attempts[i]);
    }
  }

  /** The receipt of a queued id takes out its row and no other. */
  lemma ReceiptRemovesOne(s: QState, i: nat, j: nat)
    requires IdsDistinct(s.queue) && i < |s.queue| && j < |s.queue| && s.queue[i].row.msgId != ""
    ensures s.queue[j] in Next(s, Receipt(s.queue[i].row.msgId)).queue <==> i != j
  {
  }
}
