# chatxz bookkeeping: a verified model

chatxz is a chat node on the Reticulum network stack. Over hours of announces, link events, receipts and user
actions it keeps an outbound queue, an alias map, a link registry, a discovery table, a contact directory, an
interface list and a shared path table. These Dafny modules model that bookkeeping and prove what every run of it
keeps. Code that changes state in the program is a class or a loop here, proved against a function of the state;
the theorems are about those functions and about runs of steps. What the program reads from outside (link status,
interface health, port status, path entries, the clock, whether the radio took a packet) is an argument.

| module | models |
|---|---|
| `Collections` | sequence filters, insertion-ordered dictionaries, the delete-while-iterating loop |
| `Aliases` | identity/destination aliases and hash equivalence |
| `LinkChoice`, `LinkPreference` | identity and transport-zone tests, scoring, the link each kind of packet leaves on |
| `OutboundQueue`, `QueueSafety`, `QueueDelivery`, `QueueWire`, `QueueRepeat` | the message queue, what every run keeps, what one drain puts on the wire |
| `LinkSteps`, `LinkMeaning`, `LinkSafety`, `LinkListing`, `LinkDisagreement`, `LinkRegistry` | consolidation, teardown and the re-entrant close callback |
| `PendingFiles` | per-link queues of announced files |
| `LanScope`, `PeerRecords`, `PeerMeaning`, `DiscoveryTable`, `DiscoveryEffects`, `DiscoveryView`, `IdentityDedupe`, `ProbeState`, `PeerDiscovery`, `PeerHistory` | peer discovery |
| `Names`, `Contacts`, `ContactFields`, `ContactStore`, `ContactSettled`, `ContactRefresh`, `ContactFinality`, `ContactOverlap`, `ContactOrigin`, `ContactScope`, `ContactDrift`, `ContactDirectory` | saved contacts |
| `Interfaces`, `InterfaceEntries` | interface lists and the sections of the rendered configuration |
| `PathTable` | serial and LAN routes kept apart |
| `FileServe`, `FileRanges`, `Decimal` | the chunked file responder, and how numbers are read |

`dafny verify dfyconfig.toml` checks everything.

## What the proofs found

- Hash equivalence is always reflexive on non-empty hashes and symmetric. It is the kernel of `dest_hash_for` exactly
  while no hash is registered both as an identity and as a destination (`Aliases.EquivalentIsKernelIff`). It is
  transitive exactly while every such double role is harmless (`Aliases.TransitiveIff`): two announces can break it
  (`Aliases.DoubleRoleBreaksTransitivity`), and two others leave it intact (`Aliases.MutualRolesStayTransitive`).
- A queue row without a target can never be sent: a drain always has a target and `_queue_matches_target` then
  answers no, although `retry_queue` looks up the active peer for such rows and `enqueue` logs "any (next peer)"
  (`QueueSafety.UntargetedNeverSent`).
- After a whole copy of a text nothing of that row goes out again for 30 seconds (`QueueSafety.RetransmissionsSpaced`).
  A text that fits one packet goes out whole or not at all, so it is always spaced (`QueueSafety.ShortTextsSpaced`).
  A longer one is not: when its metadata packet went out but its resource did not, no time is recorded and the next
  drain may send again at the same moment (`QueueRepeat.MetadataRepeatsAtOnce`).
- A drain drops rows of unknown type and of missing files; it never drops text (`QueueDelivery.DrainRemovesIff`).
- Announcements waiting on a closing link are dropped only when no other link of the session's peer is found: waiting is
  itself a transfer under way (`LinkSafety.DroppedIffNoHeir`).
- TCP and LAN links of equal health tie for a send although their path scores differ, and the first listed one is taken
  (`LinkPreference.ScoreFollowsPlace`). Of the guards of `send_message` after a link is found only the health tests can fire
  (`LinkPreference.SendTakes`).
- Consolidation leaves no open spare link of the peer on return when its closings promote nothing, or when every link
  cached under a hash that no identity was registered for has an identity that agrees with it
  (`LinkListing.NoSpareLeft`). The second condition is exact link by link: a link that breaks it can be left open and
  spare in a registry that is otherwise in order (`LinkDisagreement.TrustedIff`, `LinkDisagreement.SomeSpareLeft`).
- A discovery table that keeps its invariant needs no deduplication: the long `get_peers` is a filter
  (`DiscoveryView.ViewIsFilter`) and `dedupe_identities` is the identity (`IdentityDedupe.NothingToDedupe`).
- The first pass of `get_peers` never meets two hashes under one key, so nearly half of its code is dead: it shows the
  `_prefer_peer` winner of each key (`PeerMeaning.DedupKeyed`, `PeerMeaning.DedupWinner`).
- `_same_ip_preferred` cycles on three rows exactly when an announced row, a beaconed one and a third form a detour
  (`PeerRecords.SameIpCyclesIff`, `PeerRecords.SameIpCanCycle`). On a table that keeps its invariant that never happens
  (`DiscoveryView.NoCycleOnTable`), so the row shown for an address is the best one in any table order.
- Deleting a contact is not always final. Reading the directory can delete the file of a contact it has just listed,
  when another contact names that hash; the delete then blocks fewer hashes than the contact has, and a later report
  can bring one back (`ContactOverlap.DeletedHashReturns`). Exactly when a delete is final:
  `ContactFinality.DeleteFinalIff`, and `ContactFinality.DeleteFinalForIff` for the caller's own alias test.
- A saved address inside the LAN scope can be moved out by a refresh about somebody else, because the read merges its
  record behind one with an outside address (`ContactDrift.MergeMovesAddressOut`). Exactly when it stays:
  `ContactScope.RunScopeIff` for one contact, `ContactScope.RunKeepsCleanIff` for a directory without outside addresses.
- Saving a contact unblocks its hashes but never its name (`ContactStore.SaveUnblocksHashesNotNames`).
- The file responder reads `bytes=-N` as the span 0 to N, where section 14.1.2 of RFC 9110 means the last N bytes
  (`FileServe.SuffixReadAsPrefix`). With a chunk size of zero or less the body is wrong; `FileServe.BodyExactIff`
  says for which requests.

## Model

| member | source | states |
|---|---|---|
| `Collections.DeleteFailing` | chatxz/core/discovery.py:91-106 | looping over a copy of the keys and deleting as it goes leaves exactly the passing entries, in order |
| `Aliases.AliasTable.RegisterPeerMapping` | chatxz/core/messaging.py:991-999 | both tables change together, nothing changes for an empty or self-mapped hash, and the consistency of the two tables is kept |
| `Aliases.AliasTable.HashesEquivalent` | chatxz/core/messaging.py:1037-1050 | the loop with its early returns decides the equivalence relation of the lemmas below |
| `Aliases.ReachableLaws` | chatxz/core/messaging.py:991-1050 | after any run of registrations and resets: resolving is idempotent, equivalence is symmetric, and reflexive exactly on non-empty hashes |
| `Aliases.EquivalentIsKernelIff` | chatxz/core/messaging.py:1001-1050 | equivalence is "same destination" for all pairs if and only if no hash plays both roles |
| `Aliases.EquivalentTransitive` | chatxz/core/messaging.py:1037-1050 | it is then transitive |
| `Aliases.TransitiveIff` | chatxz/core/messaging.py:1037-1050 | over every consistent pair of tables: transitive if and only if every double role is harmless, a condition on the tables alone |
| `Aliases.MutualRolesStayTransitive` | chatxz/core/messaging.py:991-1050 | two registrations that leave double roles and a transitive equivalence |
| `Aliases.DoubleRoleBreaksTransitivity` | chatxz/core/messaging.py:991-1050 | two registrations after which i~a and a~b but not i~b |
| `Aliases.RegisterKeepsRolesIff` | chatxz/core/messaging.py:991-999 | a registration keeps the roles apart if and only if neither hash already plays the other role |
| `Aliases.RegisterResolvesIff` | chatxz/core/messaging.py:991-1010 | a registered pair is equivalent; the identity resolves to the destination if and only if it is not itself a destination |
| `LinkChoice.ZoneLock` | chatxz/core/messaging.py:378-427 | the nine-branch zone decision said outright: when a peer is locked to serial and when to LAN |
| `LinkChoice.LinksForMeaning` | chatxz/core/messaging.py:1999-2021 | a link is listed for a peer if and only if it is cached for it and live, or registered under one of its keys |
| `LinkChoice.LinkForPeer` | chatxz/core/messaging.py:553-582 | whatever registration it finds, the link returned matches the peer |
| `LinkChoice.ScoringLoop` | chatxz/core/messaging.py:2048-2070 | the best-so-far loop returns the first of the highest-scoring links that pass |
| `LinkChoice.FallbackLoop` | chatxz/core/messaging.py:2071-2083 | the fallback loop returns the first active link that passes |
| `LinkChoice.BestOutgoingLink` | chatxz/core/messaging.py:2023-2084 | session link, else scoring loop, else fallback loop, else a registered link: the loops compute the choice the lemmas speak of |
| `LinkChoice.ChooseIsBest` | chatxz/core/messaging.py:2048-2084 | if any listed link is good the choice is good, none scores higher, and every earlier one scores less |
| `LinkChoice.QueueSendLinkSafe` | chatxz/core/messaging.py:2187-2207 | any link picked for a peer matches it, is acceptable for it, and respects its zone |
| `LinkChoice.QueueSendLinkFinds` | chatxz/core/messaging.py:2187-2207 | a link is found whenever a healthy, matching, acceptable, non-hub link is listed for the peer |
| `LinkChoice.SendLinkSafe` | chatxz/core/messaging.py:5019-5047 | no cross-talk: every link `send_message` transmits on is healthy, the target's own, and in the target's zone; a known remote identity is equivalent to the target |
| `LinkChoice.RemoteIsTarget` | chatxz/core/messaging.py:5019-5047 | with hash roles apart, the packet's known remote party and its target have one destination |
| `LinkChoice.CallAndMediaSafe` | chatxz/core/messaging.py:5071-5143 | the same safety for call signalling and media packets |
| `LinkChoice.QueueMediaLink` | chatxz/core/messaging.py:5090-5114 | the media link loop computes the choice of the next lemma |
| `LinkChoice.MediaLinkIsBest` | chatxz/core/messaging.py:5090-5114 | without a hint, media takes a healthy usable link that no other outscores, if there is one |
| `LinkPreference.MatchesIff` | chatxz/core/messaging.py:440-455 | a link is the peer's by its identity, else by its cached hash, and only a link with neither by the keys it is filed under, transport suffix included |
| `LinkPreference.AcceptableIff` | chatxz/core/messaging.py:457-473 | which interface families may carry a peer's traffic in each zone, and serial alone for an unknown peer |
| `LinkPreference.OffHubIff` | chatxz/core/messaging.py:1209-1222 | a link of the hub's transport is refused exactly while a hub role is on, to everyone but the group and the hub server |
| `LinkPreference.FoundIff` | chatxz/core/messaging.py:553-582 | the link filed under peer and transport, or under the peer itself, first; then others filed, then cached; none if and only if none of them matches |
| `LinkPreference.CachedComeFirst` | chatxz/core/messaging.py:1999-2021 | the list the loops run over begins with the live cached links, in cache order |
| `LinkPreference.ScoreTable` | chatxz/core/messaging.py:1843-1869 | the score of a healthy link in numbers, zone bonus and round trip included |
| `LinkPreference.UnknownLink` | chatxz/core/messaging.py:1843-1847 | a link nothing is known of is never healthy and carries nothing for a locked peer |
| `LinkPreference.ScoreFollowsPlace` | chatxz/core/messaging.py:1843-1869 | at equal health without a measured round trip the score is the order of families: TCP and LAN, then UDP, then serial, which equals UDP while no LAN is reachable |
| `LinkPreference.RttOnlyRaises` | chatxz/core/messaging.py:1843-1869 | an unhealthy link scores nothing, and a measured round trip raises a score or leaves it |
| `LinkPreference.BestFamilyTaken` | chatxz/core/messaging.py:2048-2070 | without a preferred session link and measured round trips a send takes a healthy link of the best family listed for the peer |
| `LinkPreference.MediaFamilyTaken` | chatxz/core/messaging.py:5099-5112 | without a hint media takes a healthy fitting link of the best family listed: UDP, LAN, TCP, serial, any other |
| `LinkPreference.DefaultTarget` | chatxz/core/messaging.py:2025-2027 | a send without a target is for the active peer, and without one for the session's |
| `LinkPreference.SessionFirst` | chatxz/core/messaging.py:2030-2038 | the link filed for the session's peer and transport is taken before any other while healthy and fitting |
| `LinkPreference.SessionOnlyThen` | chatxz/core/messaging.py:2030-2038 | and only for the session's peer, with a transport chosen |
| `LinkPreference.FallbackTaken` | chatxz/core/messaging.py:2071-2084 | with nothing healthy listed: the first live fitting link off the hub in list order, else whatever link is found |
| `LinkPreference.QueueSources` | chatxz/core/messaging.py:2187-2207 | a fitting hint, else the best link on the peer's side, else the one found for the peer if that is |
| `LinkPreference.LinkedIff` | chatxz/core/messaging.py:3183-3211 | a peer counts as linked if and only if the link found for it is live and fits, or the first live link whose party it is fits |
| `LinkPreference.SendTakes` | chatxz/core/messaging.py:5019-5047 | of the guards of `send_message` only health can refuse a link found for a linked peer: it goes out on that link, or on a healthy one found without the hint, or not at all |
| `LinkPreference.CallTakes` | chatxz/core/messaging.py:5071-5128 | call signalling goes out on the link found for a linked peer, healthy or not, media on its media link |
| `LinkPreference.MediaSources` | chatxz/core/messaging.py:5090-5114 | a fitting hint, else a healthy fitting listed link, else the send link |
| `OutboundQueue.DrainLoop` | chatxz/core/messaging.py:2330-2401 | the loop's remaining rows, registered callbacks, packets and sent count are the rows' outcomes put together in order |
| `OutboundQueue.HubLoop` | chatxz/core/messaging.py:2226-2253 | the same for the hub's group queue, metadata packets of failed long texts included |
| `OutboundQueue.MessageQueue.EnqueueRow` | chatxz/core/messaging.py:2144-2162 | a known id changes nothing; otherwise the row goes last, unsent |
| `OutboundQueue.MessageQueue.DrainQueue` | chatxz/core/messaging.py:2320-2406 | one drain is the DrainPeer step of the state machine, and returns the number of full transmissions it made |
| `OutboundQueue.MessageQueue.DrainHubGroupQueue` | chatxz/core/messaging.py:2220-2255 | one group drain is the DrainHub step: a group row stays exactly when no target got it whole |
| `OutboundQueue.MessageQueue.OnReceipt` | chatxz/core/messaging.py:3933-3946 | a receipt takes out the row of its id, whoever sent it, and its callback |
| `OutboundQueue.MessageQueue.OnReadReceipt` | chatxz/core/messaging.py:3948-3958 | a read receipt takes out the row only through a registered callback |
| `OutboundQueue.MessageQueue.ClearQueue` | chatxz/core/messaging.py:2408-2416 | empties the queue, or takes out the rows that match the target |
| `OutboundQueue.MessageQueue.PruneStaleQueue` | chatxz/core/messaging.py:2461-2473 | takes out exactly the rows named, and counts them |
| `QueueSafety.RunInv` | chatxz/core/messaging.py:2144-2473 | every run keeps the invariant: order, distinct ids, lawful packets, spacing, stamps |
| `QueueSafety.QueueStaysInOrder` | chatxz/core/messaging.py:2144-2185 | over any run ids stay distinct and the queue is a subsequence of the rows in enqueue order |
| `QueueSafety.EveryPacketLawful` | chatxz/core/messaging.py:2164-2406 | over any run every packet is for an enqueued row, over a link of the row's own peer and zone; hub rows go only to the hub's peers of that moment, peer rows never to the hub |
| `QueueSafety.HubPeersMeaning` | chatxz/core/messaging.py:825-847 | the hub's peers are exactly the real peers some link of the hub's transport is filed under, while a hub role is on |
| `QueueSafety.RetransmissionsSpaced` | chatxz/core/messaging.py:2336-2381 | over any run, however drains for aliases interleave, after a full transmission of a text row nothing of that row, whole or metadata, goes out again before the receipt timeout |
| `QueueSafety.ShortTextsSpaced` | chatxz/core/messaging.py:5054-5066 | after any transmission of a text that fits one packet of its link, nothing of that row goes out again before the timeout |
| `QueueSafety.TextSurvives` | chatxz/core/messaging.py:2320-2406 | a text row for a real peer survives every step but its receipt, a clear that covers it or a prune that names it |
| `QueueSafety.TextNeverLost` | chatxz/core/messaging.py:2164-2473 | if a run ends without the row, some step of the run was such a receipt, clear or prune, at a moment the row was queued |
| `QueueSafety.UntargetedNeverSent` | chatxz/core/messaging.py:2164-2172 | no run ever transmits a row without a target |
| `QueueSafety.HeldBackIff` | chatxz/core/messaging.py:2340-2381 | after a send the row is held back for the timeout if and only if the whole text went out |
| `QueueRepeat.PartialSendNotHeldBack` | chatxz/core/messaging.py:5153-5220 | a long text whose resource failed after its metadata went out is held back by no later drain |
| `QueueRepeat.MetadataRepeatsAtOnce` | chatxz/core/messaging.py:2336-2381 | a run from the empty queue that transmits one 700-byte text twice at the same moment, over a link of 500 bytes, its metadata first |
| `QueueDelivery.DrainRemovesIff` | chatxz/core/messaging.py:2335-2406 | a row leaves in a drain if and only if it matches, is no text, and is of unknown type, or its file is gone or was sent over a live link |
| `QueueDelivery.DrainSendsIff` | chatxz/core/messaging.py:2335-2381 | a drain puts a full copy of a text row on a link if and only if the row matches, is not waiting for its receipt, that link is the one chosen and the radio took it; the row then stays, stamped, with its id awaiting a receipt |
| `QueueDelivery.ReceiptRemovesOne` | chatxz/core/messaging.py:2174-2185 | the receipt of a queued id takes out its row and no other |
| `QueueWire.DrainFileIff` | chatxz/core/messaging.py:2373-2396 | over a whole drain: a file row puts one packet on the wire if and only if it matches, files are included, its file exists, the link is live and the radio took it; sent whole it leaves, as metadata it stays, with its file gone it leaves unsent |
| `QueueWire.LeavesWithPacket` | chatxz/core/messaging.py:2335-2406 | a row of known type whose file still exists leaves only with its complete packet on the wire |
| `QueueWire.DrainTextIff` | chatxz/core/messaging.py:2339-2372 | over a whole drain: exactly which packet a text row puts on the wire, and the stamp the row is left with |
| `QueueWire.DrainOtherIff` | chatxz/core/messaging.py:2335-2406 | a row of unknown type leaves when it matches, and nothing of it is sent |
| `QueueWire.DrainCallbacksIff` | chatxz/core/messaging.py:2346-2372 | an id awaits a read receipt after a drain if and only if it did before or its text went out whole |
| `QueueWire.DrainRunsIff` | chatxz/core/messaging.py:2320-2329 | a drain runs for any real peer with a link, over that link, and otherwise changes nothing |
| `QueueWire.HubPacketIff` | chatxz/core/messaging.py:2226-2253 | exactly which packets one group message puts on the wire, target by target |
| `QueueWire.HubTextIff` | chatxz/core/messaging.py:2226-2253 | over a whole group drain: each target with a link the radio takes gets the text once, and the row leaves if and only if one got it whole |
| `QueueWire.HubOtherRows` | chatxz/core/messaging.py:2226-2236 | every other row is left alone and unsent |
| `QueueWire.HubTargetsIff` | chatxz/core/messaging.py:2209-2218 | a server sends to every peer of the hub, a client to its server if linked, one that names no server to the first peer |
| `QueueWire.HubRunsIff` | chatxz/core/messaging.py:2220-2225 | a group drain runs if and only if a group row is queued and a target is linked |
| `QueueWire.MatchIff` | chatxz/core/messaging.py:2164-2172 | which rows a drain or a clear for a target is about |
| `QueueWire.AwaitingIff` | chatxz/core/messaging.py:2341-2344 | a row waits for thirty seconds from its stamp, a zero stamp counting as none |
| `QueueWire.StepIff` | chatxz/core/messaging.py:2144-2185 | what enqueue, receipts, clear and prune do to queue, history and callbacks, row by row and in order |
| `LinkSteps.Consolidate` | chatxz/core/messaging.py:692-722 | the chain consolidate, teardown, close callback, notify, consolidate terminates: open links only become fewer |
| `LinkSafety.ConsolidateWinds` | chatxz/core/messaging.py:692-722 | through the whole chain no link reopens or reappears in a table, the handoff flag stays, and announced files are conserved |
| `LinkSafety.ConsolidateCloses` | chatxz/core/messaging.py:692-722 | every spare link listed for the peer at the call is closed on return |
| `LinkSafety.ConsolidateExact` | chatxz/core/messaging.py:692-722 | when no closing can promote, exactly those are closed and the active link stays |
| `LinkSafety.ClosedWinds` | chatxz/core/messaging.py:3846-3902 | a closed link is out of both tables for good, whatever its callback goes on to do |
| `LinkSafety.ClosedLetsGo` | chatxz/core/messaging.py:3881-3902 | outside a handoff it is neither active nor send link afterwards |
| `LinkSafety.RefileMeaning` | chatxz/core/messaging.py:3853-3867 | another live link cached for the peer takes over its registration, or no key of the peer stays and every other key does |
| `LinkSafety.PromoteMeaning` | chatxz/core/messaging.py:3881-3900 | after losing the active link: another link filed for a session the user did not disconnect, or none |
| `LinkSafety.NotifyAdopts` | chatxz/core/messaging.py:3570-3591 | without parallel sessions a notified link with a known peer becomes active and send link of that peer's session |
| `LinkSafety.SettleMeaning` | chatxz/core/messaging.py:3868-3880 | in table fields: outside a handoff, during a transfer and with another link for the session's peer, its queue becomes its own followed by the closed link's and nothing is dropped; otherwise the closed link's whole queue is; a handoff changes nothing |
| `LinkSafety.DroppedIffNoHeir` | chatxz/core/messaging.py:1075-1087 | announcements waiting on a closing link are dropped if and only if no other link is found, since that they wait is itself a transfer |
| `LinkSafety.ClosedSettles` | chatxz/core/messaging.py:3846-3880 | the whole close callback, re-entrant promotion included, settles the files that way |
| `LinkSafety.RefiledKeeps` | chatxz/core/messaging.py:3846-3867 | unless the closed link was active, what decides over them is what held at the close |
| `LinkMeaning.CanonicalSources` | chatxz/core/messaging.py:1012-1035 | registered destination, then recalled identity, then the link's own, then any full-length hash; our own and unknown hashes fall back to the link's identity |
| `LinkMeaning.ResolveSources` | chatxz/core/messaging.py:3505-3545 | the resolver's answer, else the identity, else the fallback |
| `LinkMeaning.PeerSources` | chatxz/core/messaging.py:964-989 | whose link it is: identity, cache, resolver, fallback in that order, and the one cache entry that changes |
| `LinkMeaning.CacheIff` | chatxz/core/messaging.py:327-332 | the cache takes the destination a hash leads to unless unknown or our own, and no other link's entry changes |
| `LinkMeaning.RegisterIff` | chatxz/core/messaging.py:584-600 | a link is filed under its peer and transport alone, unless known to be somebody else's |
| `LinkMeaning.EstablishedSources` | chatxz/core/messaging.py:3552-3569 | given hash, identity, whose link it is, and the session's peer unless that is the hub |
| `LinkMeaning.SpareIff` | chatxz/core/messaging.py:692-716 | which listed links a consolidation closes, with and without parallel sessions and a named transport |
| `LinkMeaning.PromoteIff` | chatxz/core/messaging.py:3881-3900 | the whole session state after losing the active link |
| `LinkMeaning.RefileMoves` | chatxz/core/messaging.py:3853-3867 | when the active link closes, another live link of its peer is filed and notified about, and without parallel sessions the session moves to it |
| `LinkMeaning.NotifyIs` | chatxz/core/messaging.py:3552-3591 | a notification about an unknown peer or the group changes nothing but the cache, without promotion it files the link, with it the peer's spare links are closed before the link is adopted |
| `LinkMeaning.SendLinkAfterClose` | chatxz/core/messaging.py:3881-3902 | the send link changes only if it was the closed one or the session moved; then it is the active link |
| `LinkMeaning.AdoptIff` | chatxz/core/messaging.py:3570-3591 | a notified link becomes the session's unless with parallel sessions another peer's is running; then it is only filed |
| `LinkListing.EstablishedSound` | chatxz/core/messaging.py:3552-3569 | in an orderly registry, where every link cached under an unregistered hash has an agreeing identity, a link known for a peer is established under a hash of that peer |
| `LinkListing.ConsolidateEvolves` | chatxz/core/messaging.py:692-722 | in an orderly registry consolidation, promotion included, lists no link for a peer that was not listed for it, and leaves the registry orderly |
| `LinkListing.NoSpareLeft` | chatxz/core/messaging.py:692-722 | on return no link listed for the peer beside keep is open and spare, when nothing can be promoted or the registry is orderly |
| `LinkDisagreement.SpareLeftOpen` | chatxz/core/messaging.py:692-722 | for every setting and every link whose identity disagrees with the unregistered hash it is cached under: a registry where consolidating its own peer leaves it open, listed and spare |
| `LinkDisagreement.TrustedIff` | chatxz/core/messaging.py:692-722 | no consolidation of any registry in which only this link is in doubt leaves a spare one, if and only if the hash it is cached under is registered or agrees with its identity |
| `LinkDisagreement.SomeSpareLeft` | chatxz/core/messaging.py:692-722 | a setting with all identities registered, and a registry in it, where a spare link is left |
| `LinkRegistry.Registry.CacheLinkPeer` | chatxz/core/messaging.py:327-332 | the cache step on the mutable table |
| `LinkRegistry.Registry.FindPeer` | chatxz/core/messaging.py:964-989 | identity, then cache, then resolver, then fallback; the answer and the cache are those of the step, and no other link's entry changes |
| `LinkRegistry.Registry.RegisterPeerLink` | chatxz/core/messaging.py:584-600 | the registration step on the mutable tables, refusal included |
| `LinkRegistry.Registry.UnlinkPeer` | chatxz/core/messaging.py:602-612 | every key of the peer goes and no other |
| `LinkRegistry.Registry.ConsolidateLinks` | chatxz/core/messaging.py:692-722 | the loop over the links listed at the call does the step, with the closing, conservation and exit properties above |
| `LinkRegistry.Registry.TeardownLink` | chatxz/core/messaging.py:717-719 | the link is closed, its callback runs, and it is in no table afterwards |
| `LinkRegistry.Registry.OnLinkClosed` | chatxz/core/messaging.py:3846-3902 | the close callback does the step, pending files included |
| `LinkRegistry.Registry.SettlePending` | chatxz/core/messaging.py:3868-3880 | announced files migrate to another link of the session's peer during a transfer and are flushed otherwise |
| `LinkRegistry.Registry.RefilePeer` | chatxz/core/messaging.py:3853-3867 | the refiling step, re-entering notification only for the active link |
| `LinkRegistry.Registry.PromoteSession` | chatxz/core/messaging.py:3881-3900 | the promotion step: never the lost link, only a session the user did not disconnect |
| `LinkRegistry.Registry.FindEstablishedPeer` | chatxz/core/messaging.py:3552-3569 | the given hash, then the identity, then cache and resolver, then the session: the answer is the step's |
| `LinkRegistry.Registry.NotifyEstablished` | chatxz/core/messaging.py:3552-3591 | the notification step on the mutable registry; only the link notified about may be new to the cache |
| `LinkRegistry.Registry.AdoptSession` | chatxz/core/messaging.py:3574-3591 | the link becomes the session's exactly when no parallel session of another peer is running |
| `PendingFiles.NextConserves` | chatxz/core/messaging.py:1089-1110 | arrivals, dequeues, migrations, flushes and cancels all conserve announcements |
| `PendingFiles.RunConserves` | chatxz/core/messaging.py:1089-1110 | so does every run of them |
| `PendingFiles.ExactlyOnce` | chatxz/core/messaging.py:4030-4036 | over any run each announcement is in one link's queue once, or was taken out once, never both |
| `PendingFiles.OrderKept` | chatxz/core/messaging.py:1089-1096 | two announcements waiting on one link keep their order through every step, migration included, until one is taken out |
| `PendingFiles.PendingTable.OnFileAnnounced` | chatxz/core/messaging.py:4002-4005 | the announcement goes last in its link's queue |
| `PendingFiles.PendingTable.DequeuePendingFile` | chatxz/core/messaging.py:4030-4036 | the oldest announcement of the link, or none |
| `PendingFiles.PendingTable.MigratePendingFiles` | chatxz/core/messaging.py:1089-1096 | the old link's queue is appended to the new link's, and migrating to itself changes nothing |
| `PendingFiles.PendingTable.FlushPendingFilesFailed` | chatxz/core/messaging.py:1098-1110 | the link's whole queue is taken out |
| `PendingFiles.PendingTable.CancelIncoming` | chatxz/core/messaging.py:4293-4309 | exactly the announcements of that transfer or file name are taken out |
| `PendingFiles.CancelIff` | chatxz/core/messaging.py:4293-4309 | in fields: the announcements of that transfer or file name leave that queue, an empty name naming none, and no other does |
| `LanScope.SameScopeMeaning` | chatxz/utils/lan_scope.py:13-39 | two addresses share a scope if and only if both have four parts and share the first three or a private range |
| `LanScope.SameScopeEquivalence` | chatxz/utils/lan_scope.py:13-39 | an equivalence relation on four-part addresses, and nothing else is related to anything |
| `Decimal.QuadScope` | chatxz/utils/lan_scope.py:13-39 | for addresses in dotted decimal: the first three numbers agree, or both lie in 172.16.0.0/12, or both in 192.168.0.0/16 |
| `Decimal.SplitIff` | chatxz/utils/lan_scope.py:13-39 | splitting a text is the one way to write it as parts without the separator |
| `Decimal.ParseIntIff` | chatxz/utils/file_serve.py:38-41 | a text is read as a number if and only if it is that number's decimal form, perhaps behind zeros and one sign |
| `LanScope.TenNetBySubnet` | chatxz/utils/lan_scope.py:20 | 10.0.0.0/8 is not one scope |
| `PeerRecords.PrefersIsLexicographic` | chatxz/core/discovery.py:201-219 | the nested tests are the lexicographic order of viability, round trip with missing last, rank, last seen |
| `PeerRecords.PrefersTotalPreorder` | chatxz/core/discovery.py:201-219 | reflexive, total and transitive |
| `PeerRecords.WinnerIsBest` | chatxz/core/discovery.py:221-244 | the fold over a group keeps a row preferred to every other |
| `PeerRecords.WinnerOrderFree` | chatxz/core/discovery.py:221-244 | in whatever order the rows come, the winners tie |
| `PeerRecords.SameIpChoice` | chatxz/core/discovery.py:892-906 | the choice is one of the two, verified before unverified, then no older than the other |
| `PeerRecords.ShownOverTotalPreorder` | chatxz/core/discovery.py:892-906 | verified, then last seen, then `_prefer_peer` is a total preorder |
| `PeerRecords.SameIpOptimal` | chatxz/core/discovery.py:892-906 | for two rows that are no announced and beaconed pair the choice is the greater in that order |
| `PeerRecords.SameIpCyclesIff` | chatxz/core/discovery.py:892-906 | three rows cycle if and only if they are an announced row, a beaconed one preferred to a third, and that third preferred to the announced one, all equally verified and seen |
| `PeerRecords.SameIpCanCycle` | chatxz/core/discovery.py:892-906 | three rows each beaten by the next |
| `PeerMeaning.ViableIff` | chatxz/core/discovery.py:187-199 | in row fields, when a row can be reached |
| `PeerMeaning.RankGains` | chatxz/core/discovery.py:868-884 | what each fact adds to a row's rank |
| `PeerMeaning.StorageKeyIff` | chatxz/core/discovery.py:547-560 | which rows share a storage key |
| `PeerMeaning.SameKeyIff` | chatxz/core/discovery.py:909-927 | which rows share a deduplication key |
| `IdentityDedupe.DedupeLoops` | chatxz/core/discovery.py:221-244 | grouping, comparing and removing row by row leaves exactly the rows alone in their group and the viable winners, in table order |
| `IdentityDedupe.DedupeLeavesOne` | chatxz/core/discovery.py:221-244 | for any table, afterwards no two rows share a deduplication key, and no row is new or changed |
| `IdentityDedupe.DedupeKeepsBest` | chatxz/core/discovery.py:221-244 | for every viable row, a viable row of its group preferred to it is left |
| `IdentityDedupe.NothingToDedupe` | chatxz/core/discovery.py:221-244 | on a well-formed table nothing is removed |
| `DiscoveryTable.StoreOk` | chatxz/core/discovery.py:598-677 | sanitising, evicting, merging and rejecting keep the table well formed |
| `DiscoveryTable.EvictedApart` | chatxz/core/discovery.py:467-516 | after eviction no row of another hash shares address, identity or key with the newcomer |
| `DiscoveryTable.MergeLearns` | chatxz/core/discovery.py:629-667 | what the merged row takes from the newcomer and what it keeps |
| `DiscoveryTable.StoreEffect` | chatxz/core/discovery.py:598-677 | an admitted peer ends up in its row, having told it what it lacked; any other row goes if and only if it is superseded, and otherwise keeps all but probe state |
| `DiscoveryTable.EvictsIff` | chatxz/core/discovery.py:467-516 | in row fields: an eviction takes exactly the rows of other hashes in the newcomer's family that share its address, identity or key or, only while USB is down, its real name |
| `DiscoveryTable.StoreLosesIff` | chatxz/core/discovery.py:598-677 | so a store loses exactly those rows, and every unrelated host stays |
| `DiscoveryEffects.AdmittedIff` | chatxz/core/discovery.py:145-168 | who is let in and with what address: serial while USB is up, LAN inside the scope, and one without address at that of the first row of its name or identity |
| `DiscoveryEffects.StoreFields` | chatxz/core/discovery.py:598-677 | every row after a store, field by field: the peer's own, those of its hash, and all others unchanged |
| `DiscoveryEffects.AnnounceStep` | chatxz/core/discovery.py:598-677 | the same for a step of the service: the peer's row, and exactly which rows go |
| `DiscoveryEffects.OwnIgnored` | chatxz/core/discovery.py:598-607 | peers without hash and our own are ignored |
| `DiscoveryEffects.RemovalIff` | chatxz/core/discovery.py:91-435 | in row fields, exactly which rows each of the nine purges takes |
| `DiscoveryEffects.RemovalAddsNone` | chatxz/core/discovery.py:91-435 | and that the others keep their order |
| `DiscoveryEffects.ProbeReaches` | chatxz/core/discovery.py:271-315 | a probe result or cleared round trip reaches every row of its hash, no other, and nothing but probe state |
| `DiscoveryEffects.ProbeIff` | chatxz/core/discovery.py:287-315 | the probe state after an answer, an untimed answer and a failure, within and outside the grace period |
| `DiscoveryEffects.AvgIff` | chatxz/core/peer_probe.py:163-177 | the average is the mean rounded toward zero |
| `DiscoveryEffects.SumMeaning` | chatxz/core/peer_probe.py:173-177 | the sum of the samples, by its laws |
| `DiscoveryTable.RejectEffect` | chatxz/core/discovery.py:612-621 | a rejected peer loses every row of its hash, and nobody else loses any |
| `DiscoveryTable.AdmittedInScope` | chatxz/core/discovery.py:145-164 | an admitted peer has no address over serial and, when scoped, an in-scope one over LAN |
| `DiscoveryTable.ScopeChangeRestores` | chatxz/core/discovery.py:170-185 | after a change of scope, purging outsiders and rows without address restores the invariant for the new scope |
| `DiscoveryView.DedupIsIdentity` | chatxz/core/discovery.py:937-967 | with distinct storage keys the first pass changes nothing |
| `PeerMeaning.DedupKeyed` | chatxz/core/discovery.py:937-967 | on rows of any kind the first pass never meets two hashes under one key: its branches for that are dead code |
| `PeerMeaning.DedupWinner` | chatxz/core/discovery.py:937-967 | so on rows of any kind it shows for each key the row that wins by `_prefer_peer`, and nothing else |
| `PeerMeaning.SerialShown` | chatxz/core/discovery.py:971-987 | on rows of any kind, which serial rows are shown, in order and without address |
| `PeerMeaning.AddressShown` | chatxz/core/discovery.py:988-997 | on rows of any kind, an address is shown if a LAN row has it, with the row the pairwise choice ends with |
| `DiscoveryView.CollapseIps` | chatxz/core/discovery.py:968-996 | the second pass shows for each address one LAN row of it, none verified or fresher being passed over |
| `DiscoveryView.CollapseIsIdentity` | chatxz/core/discovery.py:968-996 | when no two LAN rows share an address it changes nothing |
| `DiscoveryView.CollapseBest` | chatxz/core/discovery.py:968-996 | without such pairs on one address, the row kept for an address is a greatest one of it, whatever the row order |
| `DiscoveryView.NoCycleOnTable` | chatxz/core/discovery.py:892-906 | rows of a well-formed table on one address never cycle |
| `DiscoveryView.ViewIsFilter` | chatxz/core/discovery.py:929-999 | on a well-formed table of rns, beacon, LAN and serial rows the whole function is: the serial rows if USB is up, then the viable LAN rows, in table order |
| `DiscoveryView.ShownIffViable` | chatxz/core/discovery.py:187-199 | there, a row is shown if and only if it is viable |
| `DiscoveryView.ViewCoversAddresses` | chatxz/core/discovery.py:929-999 | with link and hub rows too: the serial rows, then exactly one viable row for each viable address, a greatest one of that address by verified, last seen and `_prefer_peer` |
| `ProbeState.HistoryTracked` | chatxz/core/discovery.py:256-315 | over any history of announces, announces stored in another row of the hash, and probes, the counters are exactly the current failure streak, the last six round trips and their mean, and the last announce |
| `ProbeState.TruncatedBound` | chatxz/core/peer_probe.py:173-177 | a truncated mean above the bound means a sum above bound times count |
| `ProbeState.PurgedOnlyWhenDead` | chatxz/core/discovery.py:317-347 | a row is purged only if not serial, announced longer ago than the limit, and with enough failures in a row or a mean of its last three to six round trips above the bound |
| `ProbeState.SerialNeverPurged` | chatxz/core/discovery.py:323-325 | serial rows are never purged |
| `PeerHistory.LifeTracked` | chatxz/core/discovery.py:256-315 | over any run of the service, stored records carrying no round trips, every row is what its recorded history of announces and probes makes of its first form |
| `PeerHistory.PurgedAfterRun` | chatxz/core/discovery.py:317-347 | after any run, a row the probe purge drops has such a history: announced too long ago, and enough failures in a row or round trips too slow |
| `PeerDiscovery.NextOk` | chatxz/core/discovery.py:91-516 | every operation keeps the table invariant under a fixed scope |
| `PeerDiscovery.RunOk` | chatxz/core/discovery.py:91-677 | so does every run: storage keys, no local hashes, serial rows without address, no two hashes of one family sharing address, identity or key, and in-scope LAN addresses |
| `PeerDiscovery.ReachableViewIsFilter` | chatxz/core/discovery.py:929-999 | after any run from the empty table `get_peers` is that filter |
| `PeerDiscovery.EvictLoop` | chatxz/core/discovery.py:467-516 | the eviction loop removes exactly the superseded rows |
| `PeerDiscovery.ReprobeLoop` | chatxz/core/discovery.py:293-315 | the in-place loop rewrites probe state of every row and nothing else |
| `PeerDiscovery.FoldLoops` | chatxz/core/discovery.py:937-999 | the two loops and the last filter of `get_peers` compute the view the refinement is about |
| `PeerDiscovery.Discovery.SetLocalHashes` | chatxz/core/discovery.py:91-106 | drops our own rows and keeps the invariant for the new local hashes |
| `PeerDiscovery.Discovery.StorePeer` | chatxz/core/discovery.py:598-677 | the store step on the mutable table; when it answers true the peer has its row |
| `PeerDiscovery.Discovery.UpdatePeerProbe` | chatxz/core/discovery.py:287-315 | the probe step on the mutable table, invariant kept |
| `PeerDiscovery.Discovery.PurgeStaleProbes` | chatxz/core/discovery.py:317-347 | the purge step on the mutable table, with the number of rows removed |
| `PeerDiscovery.Discovery.Dedupe` | chatxz/core/discovery.py:221-244 | the deduplication step on the mutable table, with the number of rows removed |
| `PeerDiscovery.Discovery.GetPeers` | chatxz/core/discovery.py:929-999 | expires rows and returns the view, or nothing while discovery is off |
| `Contacts.NormalizeIsNormal` | chatxz/core/contacts.py:135-164 | normalising gives each role its own hash, loses no hash and invents none |
| `Contacts.NormalizeIdempotent` | chatxz/core/contacts.py:135-164 | normalising twice is normalising once |
| `Contacts.MergeHashes` | chatxz/core/contacts.py:695-714 | merging keeps every hash of the primary and invents none |
| `Contacts.MergeCompletes` | chatxz/core/contacts.py:695-714 | the LAN record and the serial record of one peer become one record with both hashes, if and only if they differ |
| `ContactFields.NormalizeFields` | chatxz/core/contacts.py:135-164 | in fields: which role each hash ends up in |
| `ContactFields.PrimaryFields` | chatxz/core/contacts.py:197-203 | a record is filed under its LAN hash, else its serial hash |
| `ContactFields.MergeFields` | chatxz/core/contacts.py:695-714 | in fields: the merged record |
| `ContactFields.ShouldMergeIff` | chatxz/core/contacts.py:650-684 | two records are one peer's if and only if they share a hash, or one is LAN only, the other serial only, and their names agree |
| `ContactFields.RelatedIff` | chatxz/core/contacts.py:238-246 | names are related when they agree, in any case, as far as the shorter goes |
| `ContactFields.HashLikeIff` | chatxz/core/contacts.py:167-177 | when a name is only a hash |
| `ContactFields.LowerIs` | chatxz/core/contacts.py:238-246 | lower-casing leaves no capital and changes nothing else |
| `ContactFields.LoadFields` | chatxz/core/contacts.py:429-446 | a file without hash or name takes its file name for it |
| `ContactFields.GroupKeysIff` | chatxz/core/contacts.py:628-643 | the keys a row is grouped by, in order |
| `ContactFields.GroupJoins` | chatxz/core/contacts.py:728-755 | a row joins the group of the first of its keys met before and brings its other keys along |
| `ContactFields.GroupStarts` | chatxz/core/contacts.py:728-755 | a row none of whose keys was met starts a group |
| `ContactFields.MatchIff` | chatxz/core/contacts.py:249-281 | which contacts a report is about; the last clause of the test never holds |
| `ContactFields.BlockedIff` | chatxz/core/contacts.py:88-106 | which peers are blocked: by hash, identity, or a name a deleted one agrees with |
| `ContactFields.RecordIff` | chatxz/core/contacts.py:51-64 | what a removed file leaves in the block list |
| `ContactFields.DeleteUnfound` | chatxz/core/contacts.py:589-605 | deleting by a hash no contact has takes at most the file of that name |
| `ContactFields.ClearIff` | chatxz/core/contacts.py:67-85 | a save unblocks its hashes and identities and no name |
| `ContactStore.ListInventsNothing` | chatxz/core/contacts.py:717-795 | no contact read has a hash that no file had, whatever the directory order |
| `ContactStore.DeleteLeavesNoFile` | chatxz/core/contacts.py:589-613 | after a delete that found a contact no file holds any of its hashes |
| `ContactStore.DeletedStaysGone` | chatxz/core/contacts.py:589-613 | and no later lookup finds any of them |
| `ContactStore.UnrelatedUntouched` | chatxz/core/contacts.py:589-613 | a file the read left alone and that is not related to the contact is untouched, except the file named by the hash asked for when the contact is in no file |
| `ContactStore.BlockedExactly` | chatxz/core/contacts.py:51-64 | a delete blocks exactly the hashes of the files it removes, beside those already blocked |
| `ContactStore.ContactBlockedIff` | chatxz/core/contacts.py:589-613 | a hash of the deleted contact ends up blocked if and only if it was, or some file still held it after the read |
| `ContactStore.BlockedSyncsChangeNothing` | chatxz/core/contacts.py:284-297 | any run of refreshes for blocked hashes leaves the store as it is |
| `ContactStore.DisjointReadKeeps` | chatxz/core/contacts.py:776-795 | a read that lists contacts without a shared hash leaves every hash of the one found in a file |
| `ContactStore.DisjointDeleteIsFinal` | chatxz/core/contacts.py:589-613 | so such a delete is final |
| `ContactFinality.UnblockedReportChanges` | chatxz/core/contacts.py:284-374 | an unblocked report that matches some contact and whose hash no file holds puts that hash on disk |
| `ContactFinality.IdleIff` | chatxz/core/contacts.py:284-374 | no refresh for a hash that no file holds ever changes the store, under whatever alias test, if and only if it is blocked or no file is left |
| `ContactFinality.IdleForIff` | chatxz/core/contacts.py:284-374 | the same for any one alias test, where no file holds a blocked identity: a report may name a remaining contact's primary hash as its identity |
| `ContactFinality.DeleteFinalIff` | chatxz/core/contacts.py:589-613 | after a delete that found a contact, runs of refreshes for its hashes leave the store alone if and only if the delete takes every file, or each hash was already blocked or held by some file after the read |
| `ContactFinality.DeleteFinalForIff` | chatxz/core/contacts.py:589-613 | the same for any one alias test, where no file left holds a blocked identity |
| `ContactStore.SaveUnblocksHashesNotNames` | chatxz/core/contacts.py:67-106 | after a save the peer is still blocked if and only if a blocked name relates to its name |
| `ContactOverlap.ReadLosesHash` | chatxz/core/contacts.py:717-795 | four files whose read lists a contact and leaves one of its hashes in no file |
| `ContactOverlap.DeleteLeavesHashUnblocked` | chatxz/core/contacts.py:589-613 | deleting that contact by that hash does not block it |
| `ContactOverlap.DeletedHashReturns` | chatxz/core/contacts.py:589-613 | and one report of that hash then brings it back to disk, with the plainest alias test: the delete was not final |
| `ContactSettled.SettledReadChangesNothing` | chatxz/core/contacts.py:717-795 | reading a directory of unrelated, complete records lists them in order and writes nothing |
| `ContactSettled.SettledDelete` | chatxz/core/contacts.py:589-613 | deleting from it removes that contact's file and no other, and adds to the index exactly its hashes, its identity and its name |
| `ContactRefresh.RefreshTouchesOneTransport` | chatxz/core/contacts.py:303-361 | a report over one transport files its hash there, leaves the other transport's fields alone, and never renames a contact the user named |
| `ContactRefresh.RefreshFields` | chatxz/core/contacts.py:303-361 | in fields: address, port, identities, hashes and name after a report; the address is the reported one if and only if the old is empty, equal or outside the scope, there is no scope, or the new one is inside |
| `ContactRefresh.MovesWithinScope` | chatxz/core/contacts.py:897-918 | any in-scope address reported for a contact is the one saved |
| `ContactRefresh.SyncWrites` | chatxz/core/contacts.py:363-374 | the refreshed record is on disk under its primary hash and under no other of its hashes; other files stay |
| `ContactRefresh.RefreshKeepsScope` | chatxz/core/contacts.py:327-334 | a refresh never moves an in-scope address out of scope |
| `ContactOrigin.ListedAddress` | chatxz/core/contacts.py:695-714 | the address of a contact read is the first one among the records merged into it, in merge order |
| `ContactOrigin.EveryFileListed` | chatxz/core/contacts.py:717-795 | every file of the directory is merged into some contact read |
| `ContactScope.SyncKeepsCleanIff` | chatxz/core/contacts.py:284-374 | a refresh of a directory without outside addresses leaves it so if and only if it does not give an outside address to a contact that has none |
| `ContactScope.RunKeepsCleanIff` | chatxz/core/contacts.py:284-374 | over any run, reads and merges included, no stored address ever leaves the scope if and only if no step does that |
| `ContactScope.InScopeReportsKeepScope` | chatxz/core/contacts.py:897-918 | so reports from inside the scope never move an address out |
| `ContactScope.StepScopeIff` | chatxz/core/contacts.py:284-374 | in any directory, a contact's address is in scope after a refresh if and only if the first one among its records is, or the report is about it and brings one that is |
| `ContactScope.RunScopeIff` | chatxz/core/contacts.py:284-374 | an in-scope address followed through a run, its contact staying on disk, stays in scope if and only if that holds at every step |
| `ContactScope.ReadOnDisk` | chatxz/core/contacts.py:776-795 | after a read that writes back, or of a settled directory, contacts without a shared hash are on disk under their primary hash |
| `ContactScope.StepOnDisk` | chatxz/core/contacts.py:363-374 | and still are after a refresh that names no contact but the one it matches |
| `ContactDrift.MergeMovesAddressOut` | chatxz/core/contacts.py:695-714 | two files, and a refresh about somebody else that moves an in-scope address out |
| `ContactDirectory.GroupLoop` | chatxz/core/contacts.py:728-755 | the grouping pass, row by row, gives the groups the theorems are about |
| `ContactDirectory.SweepLoop` | chatxz/core/contacts.py:756-774 | the sweep that merges later rows into each row gives the contacts the theorems are about |
| `ContactDirectory.Directory.ListContacts` | chatxz/core/contacts.py:717-795 | the read with its writes and removals changes the files as the theorems say |
| `ContactDirectory.Directory.FindContact` | chatxz/core/contacts.py:216-224 | a contact found has the hash asked for |
| `ContactDirectory.Directory.DeleteContact` | chatxz/core/contacts.py:589-613 | the delete of the theorems, on files and index; an empty hash changes nothing |
| `ContactDirectory.Directory.SyncFromDiscovery` | chatxz/core/contacts.py:284-374 | the refresh of the theorems: blocked peers change nothing, the first matching contact is rewritten |
| `ContactDirectory.Directory.ClearContactDeleted` | chatxz/core/contacts.py:67-85 | takes the saved contact's hashes out of both blocked sets and leaves the names |
| `Interfaces.NormalForm` | chatxz/core/rns_interfaces.py:352-393 | never empty, at most one UDP entry, one TCP LAN entry, each serial port once, every entry complete |
| `Interfaces.NormalizeIdempotent` | chatxz/core/rns_interfaces.py:352-393 | for a fixed port status normalising twice is normalising once, whatever ids are on offer |
| `Interfaces.FirstPerSlotUnique` | chatxz/core/rns_interfaces.py:367-393 | deduplication keeps one entry for every slot present, every entry without a slot, and adds none |
| `Interfaces.NormalizeInterfaceList` | chatxz/core/rns_interfaces.py:352-393 | the two loops with their seen set compute that normal form |
| `Interfaces.SetPrimaryResult` | chatxz/core/rns_interfaces.py:434-465 | every other entry in order, then exactly one LAN transport: the one asked for, enabled |
| `Interfaces.SetPrimaryLanTransport` | chatxz/core/rns_interfaces.py:434-465 | the loop with its three skips computes that result |
| `Interfaces.SectionsAreFilter` | chatxz/core/rns_interfaces.py:1308-1374 | on a normalised list the seen flags never fire: exactly the entries in use get a section, in order |
| `Interfaces.RenderLoop` | chatxz/core/rns_interfaces.py:1304-1374 | the rendering loop with its seen ports and flags computes those sections |
| `Interfaces.RenderSafe` | chatxz/core/rns_interfaces.py:1272-1396 | for every input each slot is rendered at most once, and the AutoInterface section exactly when enabled, on a desktop other than Windows, with no enabled UDP entry and no LAN preset |
| `InterfaceEntries.TypeFollowsPreset` | chatxz/core/rns_interfaces.py:352-366 | the type of a completed entry follows its preset, and the stored type only for unknown presets |
| `InterfaceEntries.StoredWins` | chatxz/core/rns_interfaces.py:352-366 | every other stored field wins; a serial entry is enabled if and only if its port can be opened and the user has not disabled it |
| `InterfaceEntries.FreshEntry` | chatxz/core/rns_interfaces.py:352-366 | the defaults of each preset |
| `InterfaceEntries.NamedAfterType` | chatxz/core/rns_interfaces.py:363-364 | an unnamed entry of an unknown preset is named after its type |
| `InterfaceEntries.SlotMeaning` | chatxz/core/rns_interfaces.py:367-393 | what may occur once, read off the stored entry |
| `InterfaceEntries.KeptUnlessEarlier` | chatxz/core/rns_interfaces.py:367-393 | a stored entry is kept, completed, unless an earlier one has its slot |
| `InterfaceEntries.NoneInvented` | chatxz/core/rns_interfaces.py:352-393 | every entry of the list is a stored one completed, or the default of an empty list |
| `InterfaceEntries.OrdinaryEntryStays` | chatxz/core/rns_interfaces.py:352-393 | TCP clients, hub servers and foreign entries are never lost, however many, and keep type and fields |
| `InterfaceEntries.SetPrimaryEntry` | chatxz/core/rns_interfaces.py:455-465 | the LAN transport that takes over, field by field |
| `InterfaceEntries.RenderedIff` | chatxz/core/rns_interfaces.py:1272-1396 | an entry gets a section if and only if it is enabled and, on Android, not serial; AutoInterface only with no LAN preset stored |
| `PathTable.PruneSeparates` | chatxz/core/lan_rns.py:344-369 | pruning separates the zones, a second prune removes nothing, and a table already separated is left alone |
| `PathTable.PruneIff` | chatxz/core/lan_rns.py:344-369 | in entry fields, exactly which paths a prune takes out |
| `PathTable.RemovalsKeepSeparation` | chatxz/core/lan_rns.py:408-455 | removing paths, in any number, never mixes the zones again |
| `PathTable.EnsureSerialResult` | chatxz/core/lan_rns.py:393-405 | every other entry is unchanged; the peer's own stays, unchanged, if and only if it was on a healthy serial interface or names no interface; a hash that is no destination changes nothing |
| `PathTable.RequestSeesIff` | chatxz/core/transport_isolation.py:35-58 | with isolation on, a request from a serial or LAN interface sees exactly the other interfaces on its side, in order |
| `PathTable.RequestSeesAll` | chatxz/core/transport_isolation.py:46-51 | without isolation, without a source or from any other interface it sees them all |
| `PathTable.Transport.PruneCrossZonePaths` | chatxz/core/lan_rns.py:344-369 | the pruning loop leaves a separated table and counts what it removed |
| `PathTable.Transport.EnsureSerialPathPinned` | chatxz/core/lan_rns.py:393-405 | the peer is pinned, the answer is true exactly when it is on a healthy serial path, and a path request goes out exactly when asked for and it is not |
| `PathTable.Transport.PathRequest` | chatxz/core/transport_isolation.py:103-144 | the handler runs with the filtered interfaces, the full list is back afterwards, and the destination's cached path is dropped if and only if it crosses to the other side |
| `FileServe.ServedSpanInside` | chatxz/utils/file_serve.py:30-48 | for every header a served span lies inside the file, and only an empty file has an empty one |
| `FileServe.SuffixReadAsPrefix` | chatxz/utils/file_serve.py:35-41 | `bytes=-N` is answered with bytes 0 to N |
| `FileRanges.CutIff` | chatxz/utils/file_serve.py:36-37 | the spec is cut at its first dash |
| `FileRanges.FromTo` | chatxz/utils/file_serve.py:35-47 | `bytes=a-b` is the span from a to b cut off at the end of the file, refused if and only if a > b or a is past the end |
| `FileRanges.FromOn` | chatxz/utils/file_serve.py:35-47 | `bytes=a-` runs from a to the end |
| `FileRanges.PlainForms` | chatxz/utils/file_serve.py:35-47 | both forms, and `bytes=-b`, with the numbers in plain decimal |
| `FileRanges.NegativeEnd` | chatxz/utils/file_serve.py:38-47 | a negative end is refused |
| `FileRanges.Unreadable` | chatxz/utils/file_serve.py:36-45 | text that is no number, no dash, or a bare dash gives the whole file |
| `FileRanges.OtherHeader` | chatxz/utils/file_serve.py:31-35 | so does a header that does not begin with `bytes=` |
| `FileRanges.ResumedDownload` | chatxz/utils/file_serve.py:30-72 | a download resumed at a gets exactly the rest of the file |
| `FileServe.ChunksExact` | chatxz/utils/file_serve.py:62-68 | with a positive chunk size the loop writes exactly the requested bytes |
| `FileServe.BodyExactIff` | chatxz/utils/file_serve.py:48-68 | Content-Length is the span's length, and the body is the span if and only if the chunk size is positive, nothing is due, or it is negative and the span runs to the end |
| `FileServe.StatusMeaning` | chatxz/utils/file_serve.py:48-53 | 200 if and only if the body is the whole file, else 206; the body is as long as announced |
| `FileServe.WriteChunks` | chatxz/utils/file_serve.py:62-68 | the loop terminates for every chunk size and writes what the lemmas describe |
| `FileServe.StreamFile` | chatxz/utils/file_serve.py:30-72 | the whole response: 416, or status, length and body |

## Left out

- LinkRegistry.Registry.ConsolidateLinks: that the kept link itself stays open is promised only when no closing can promote, because with three links it can be closed too.
- LinkRegistry.Registry.OnLinkClosed: user interface callbacks have no effect on the state; the transfers under way are an argument.
- LinkRegistry.Registry.FindPeer: reading a link's identity also registers its alias pair in the program; here the pairs are taken as already registered (IdentitiesRegistered), and the answers of recall and of the peer resolver are arguments.
- QueueSafety.RetransmissionsSpaced: says nothing after a packet that carried only metadata, where it is false (MetadataRepeatsAtOnce).
- OutboundQueue.MessageQueue.DrainQueue: one drain is one step; interleavings of threads inside a drain are not modelled, and a receipt that arrives during one would be overwritten when the drain stores its list.
- ContactScope.RunScopeIff: follows a contact that is on disk under its primary hash after every step (ReadOnDisk and StepOnDisk say when it is); a contact whose file another contact's hash overwrites is not followed.
- ContactDirectory.Directory.ClearContactDeleted: of `save_contact` only what it does to the deleted index is modelled, not how it fills the record's fields.
- DiscoveryTable.ScopeChangeRestores: the invariant's in-scope part is for one fixed scope; this lemma is the way from one scope to another.
- PeerDiscovery.Discovery.StorePeer: `serial_rns` is always set on serial rows, as no caller passes a false value; UDP target registration and listeners are not modelled.
- FileServe.StreamFile: the file does not change while it is served and the client does not abort; header text is taken stripped, and of Python's `int` only signed decimal digits are read.
- PathTable.Transport.EnsureSerialPathPinned: what the path request later brings in is not modelled.
- PathTable.Transport.PathRequest: isolation is an argument; the original handler it calls belongs to Reticulum.
- `retry_queue`: one drain per target; the theorems about runs hold for any sequence of drains.
- `send_file`, its choice of link when none is given and its transfer slot: only its outcome in a drain is modelled.
- `send_hub_message`'s choice of transport: the hub's packets are shown to match their peer, not to keep its zone.
- Parsing of announces and beacons, and of stored JSON: records are given as fields.
- Writing and loading the queue file, and restoring it after a restart.
- The order of a directory listing: the program sorts it, the theorems hold for any order.
- The text of the rendered configuration beyond which sections it has, and the logging of skipped serial ports.
- `add_interface`, `update_interface`, `prune_bridged_lan_paths` and the other one-line path purges: they would add easy members.
- Unicode and formatting: hashes are lower case without colons, addresses and names stripped, lower-casing is ASCII, and `via` is an enumeration.
- Rounding of a link's round-trip score: the score is an argument.
- Reticulum, sockets, HTTP, WebSocket and IPC plumbing, threads and timers, Android and serial-port shims, the service's request handlers, and the Rust crates.
