/** Spacing needs the earlier transmission to be whole: metadata alone can be followed at once by another packet. */
module QueueRepeat {
  import opened Collections
  import opened Aliases
  import opened LinkChoice
  import opened OutboundQueue
  import opened QueueSafety

  /** A row whose resource failed after its metadata went out carries no stamp, so no later drain holds it back. */
  lemma PartialSendNotHeldBack(c: DrainCall, e: Entry, a: Attempt, l: LinkId, later: Time)
    requires !Awaiting(e, c.now) && a.fate == MetadataOnly && Long(a.env, l, e.row)
    ensures var o := TextOutcome(c, e, a, Some(l));
            |o.packets| == 1 && !o.packets[0].complete && |o.kept| == 1 && !Awaiting(o.kept[0], later)
  {
  }

  // One peer on one live LAN link, and one text row for it, too long for a packet of 500 bytes.
  const PEER: Hash := "p"
  const LINK: LinkId := 1
  const CONTENT: string := seq(600, _ => 'x')
  const ROW := Row(Text, CONTENT, CONTENT, PEER, "m", 700)
  const TABLE := Table(NO_ALIASES, [LINK], RawDict([LINK], map[LINK := PEER]), RawDict([Plain(PEER)], map[Plain(PEER) := LINK]),
                       "", "", None)
  const ENV := Env(map[LINK := Active], map[LINK := LinkInfo(Lan, true, false, "", None, 500)], map[], {}, map[],
                   false, true, true, {}, false, "")
  const CALL := DrainCall(TABLE, ENV, PEER, LINK, false, EPOCH)

  function Try(fate: Fate): Attempt {
    Attempt(ENV, fate, EPOCH, EPOCH, true)
  }

  function DrainStep(fate: Fate): Step {
    DrainPeer(TABLE, ENV, Some(LINK), PEER, false, EPOCH, [Try(fate)])
  }

  const STEPS := [Enqueue(ROW), DrainStep(MetadataOnly), DrainStep(Sent)]

  lemma PeerResolves()
    ensures DestFor(NO_ALIASES, PEER) == PEER && Equivalent(NO_ALIASES, PEER, PEER)
    ensures !Unresolved(PEER) && !IsHubPeer(PEER) && OutgoingPeer(TABLE, PEER) == PEER
  {
  }

  lemma LinkUsable()
    ensures Matches(TABLE, ENV, LINK, PEER) && Acceptable(TABLE, ENV, LINK, PEER) && Healthy(ENV, LINK)
    ensures IsActive(ENV, LINK) && LinkForPeer(TABLE, ENV, PEER, None) == Some(LINK)
    ensures RemotePeer(TABLE, ENV, LINK) == PEER
  {
    PeerResolves();
    hide DestFor, Equivalent;
    assert Plain(PEER) in TABLE.byPeer.vals && TABLE.byPeer.vals[Plain(PEER)] == LINK;
  }

  lemma LinkChosen()
    ensures QueueSendLink(TABLE, ENV, PEER, Some(LINK)) == Some(LINK)
    ensures SendLink(TABLE, ENV, PEER, Some(LINK)) == Some(LINK)
    ensures DrainTo(TABLE, ENV, Some(LINK), PEER, false, EPOCH) == Some(CALL)
  {
    PeerResolves();
    LinkUsable();
    hide DestFor, Equivalent, Matches, Acceptable, LinkForPeer, RemotePeer, IsActive, Healthy, OutgoingPeer, BestOutgoing;
  }

  const HELD := Entry(ROW, 0, None)

  function Copy(complete: bool): Packet {
    Packet(0, LINK, PEER, EPOCH, complete, true, false, Moment(TABLE, ENV))
  }

  lemma RowSent(fate: Fate)
    requires fate != NotSent
    ensures var o := DrainRow(CALL, HELD, Try(fate));
            o.packets == [Copy(fate == Sent)] && (fate == MetadataOnly ==> o.kept == [HELD] && o.callbacks == {})
  {
    PeerResolves();
    LinkChosen();
    hide SendLink, Equivalent, DestFor;
  }

  lemma DrainOne(s: QState, fate: Fate)
    requires s.queue == [HELD] && fate != NotSent
    ensures var r := Next(s, DrainStep(fate));
            && r.wire == s.wire + [Copy(fate == Sent)] && r.clock == EPOCH
            && (fate == MetadataOnly ==> r.queue == [HELD])
  {
    LinkChosen();
    RowSent(fate);
    hide DrainTo, DrainRow;
    var os := DrainOutcomes(CALL, s.queue, [Try(fate)]);
    assert os == [DrainRow(CALL, HELD, Try(fate))] && os[1..] == [];
    assert Gather(os[1..]) == Outcome([], [], {});
  }

  lemma Enqueued()
    ensures Next(EMPTY, Enqueue(ROW)) == QState([HELD], [ROW], [], {}, EPOCH)
  {
  }

  /** A run that transmits one row twice at the same moment: its metadata, then the whole text. */
  lemma MetadataRepeatsAtOnce()
    ensures Runs(EMPTY, STEPS)
    ensures var w := Run(EMPTY, STEPS).wire;
            && |w| == 2 && PeerText(w[0]) && FullText(w[1]) && w[0].serial == w[1].serial
            && w[1].at - w[0].at < QUEUE_RECEIPT_TIMEOUT_S
  {
    Enqueued();
    var s1 := Next(EMPTY, Enqueue(ROW));
    DrainOne(s1, MetadataOnly);
    var s2 := Next(s1, DrainStep(MetadataOnly));
    DrainOne(s2, Sent);
    StepFits(s1, MetadataOnly);
    StepFits(s2, Sent);
    RunOfThree(s1, s2);
  }

  lemma StepFits(s: QState, fate: Fate)
    requires s.queue == [HELD] && s.clock == EPOCH
    ensures Fits(s, DrainStep(fate))
  {
    assert [Try(fate)][1..] == [] && Ordered(EPOCH, [Try(fate)][1..]);
  }

  lemma RunOfThree(s1: QState, s2: QState)
    requires Next(EMPTY, Enqueue(ROW)) == s1 && Next(s1, DrainStep(MetadataOnly)) == s2
    requires Fits(s1, DrainStep(MetadataOnly)) && Fits(s2, DrainStep(Sent))
    ensures Runs(EMPTY, STEPS) && Run(EMPTY, STEPS) == Next(s2, DrainStep(Sent))
  {
    hide Next;
    var last := [DrainStep(Sent)];
    var two := [DrainStep(MetadataOnly)] + last;
    assert STEPS[1..] == two && two[1..] == last && last[1..] == [];
    var s3 := Next(s2, DrainStep(Sent));
    assert Runs(s3, []) && Run(s3, []) == s3;
    assert Runs(s2, last) && Run(s2, last) == s3;
    assert Runs(s1, two) && Run(s1, two) == s3;
    assert STEPS[0] == Enqueue(ROW) && Fits(EMPTY, STEPS[0]);
  }
}
