/** The history of each row of the discovery table over a run, and what it says of the rows that a purge drops. */
module PeerHistory {
  import opened Collections
  import opened LanScope
  import opened PeerRecords
  import opened DiscoveryTable
  import opened IdentityDedupe
  import opened ProbeState
  import opened PeerDiscovery

  /** Equal in what liveness is judged by. */
  predicate SameLife(a: Peer, b: Peer) {
    a.via == b.via && a.lastSeen == b.lastSeen && a.probe == b.probe
  }

  /** What a step does to the row filed under k. */
  function EventsOf(s: Service, scope: string, step: Step, k: Key): seq<Event> {
    match step
    case Stored(active, now, peer) =>
      var p := Admitted(s.table, Env(scope, active, now), peer);
      if peer.hash == "" || IsLocal(s.local, peer) || p.None? then []
      else if k == StorageKey(p.value) then [Announced(p.value.lastSeen, now)]
      else if k.hash == p.value.hash then [Refresh(now)]
      else []
    case ProbeResult(hash, rtt, ok, now) =>
      if hash == "" || k.hash != hash then []
      else if !ok then [Failed(now)]
      else if rtt.Some? then [Answered(rtt.value, now)] else [Untimed(now)]
    case RttCleared(hash) => if hash == "" || k.hash != hash then [] else [Event.RttCleared]
    case _ => []
  }

  /** A row's first form and what has happened to it since. */
  datatype Life = Life(start: Peer, events: seq<Event>)

  /** The life of the row filed under k at the end of a run. */
  function LifeOf(scope: string, steps: seq<Step>, k: Key): Option<Life> {
    if steps == [] then None
    else
      var n := |steps| - 1;
      var s := Run(START, scope, steps[..n]);
      var r := Next(s, scope, steps[n]);
      if k !in r.table.vals then None
      else if k !in s.table.vals then Some(Life(r.table.vals[k], []))
      else
        match LifeOf(scope, steps[..n], k)
        case None => None
        case Some(l) => Some(l.(events := l.events + EventsOf(s, scope, steps[n], k)))
  }

  /** Announced records carry no round trips yet. */
  predicate Unprobed(step: Step) {
    step.Stored? ==> step.peer.probe.samples == [] && step.peer.probe.avg == None
  }

  lemma {:induction false} RunSnoc(s: Service, scope: string, steps: seq<Step>)
    requires steps != []
    ensures var n := |steps| - 1; Run(s, scope, steps) == Next(Run(s, scope, steps[..n]), scope, steps[n])
    decreases |steps|
  {
    hide Next;
    var n := |steps| - 1;
    if n == 0 {
      assert steps[1..] == [] && steps[..0] == [];
    } else {
      RunSnoc(Next(s, scope, steps[0]), scope, steps[1..]);
      assert steps[1..][..n - 1] == steps[..n][1..] && steps[..n][0] == steps[0];
    }
  }

  // ----- one step -----

  lemma AfterSame(a: Peer, b: Peer, e: Event)
    requires SameLife(a, b)
    ensures SameLife(After(a, e), After(b, e))
  {
  }

  lemma AfterMore(start: Peer, events: seq<Event>, more: seq<Event>, row: Peer)
    requires |more| <= 1 && SameLife(row, AfterAll(start, events))
    ensures SameLife(AfterAll(row, more), AfterAll(start, events + more))
  {
    hide After, SameLife;
    if more == [] {
      assert events + more == events;
    } else {
      var e := more[0];
      assert more == [e] && more[..0] == [] && AfterAll(row, []) == row;
      assert (events + [e])[..|events|] == events;
      AfterSame(row, AfterAll(start, events), e);
    }
  }

  lemma MergeLife(env: Env, e: Peer, p: Peer, now: Time)
    requires Merge(env, e, p).Some?
    ensures var m := Merge(env, e, p).value;
            SameLife(m.(probe := Refreshed(m, now)), After(e, Announced(p.lastSeen, now))) && m.hash == e.hash
  {
    hide HashLike;
  }

  lemma AdmittedLife(t: Table, env: Env, peer: Peer)
    requires Admitted(t, env, peer).Some?
    ensures var p := Admitted(t, env, peer).value; p.lastSeen == peer.lastSeen && p.probe == peer.probe && p.hash == peer.hash
  {
  }

  lemma InsertOwn(t: Table, env: Env, p: Peer)
    requires StorageKey(p) in Insert(t, env, p).vals
    ensures var k := StorageKey(p);
            var row := Insert(t, env, p).vals[k];
            if k in t.vals then t.vals[k].hash == p.hash ==> SameLife(row, After(t.vals[k], Announced(p.lastSeen, env.now)))
            else row == p.(probe := Refreshed(p, env.now))
  {
    hide Merge, After, SameLife;
    var key := StorageKey(p);
    if key in t.vals {
      MergeLife(env, t.vals[key], p, env.now);
    }
  }

  lemma InsertOther(t: Table, env: Env, p: Peer, k: Key)
    requires k in Insert(t, env, p).vals && k != StorageKey(p)
    requires p.ip != "" && env.scope != "" ==> InScope(p.ip, env.scope)
    requires StorageKey(p) in t.vals ==> StorageKey(t.vals[StorageKey(p)]) == StorageKey(p)
    ensures k in t.vals
    ensures Insert(t, env, p).vals[k] == if t.vals[k].hash == p.hash then t.vals[k].(probe := Refreshed(t.vals[k], env.now)) else t.vals[k]
  {
    hide Merge, InScope, LearnsFrom, Refreshed;
    if StorageKey(p) in t.vals {
      MergeLearns(env, t.vals[StorageKey(p)], p);
    }
  }

  /** Inserting p: its row is announced, other rows of its hash are refreshed, the rest is untouched. */
  lemma InsertLife(t: Table, env: Env, p: Peer, k: Key)
    requires k in Insert(t, env, p).vals
    requires p.ip != "" && env.scope != "" ==> InScope(p.ip, env.scope)
    requires forall l :: l in t.vals ==> l == StorageKey(t.vals[l])
    ensures var row := Insert(t, env, p).vals[k];
            if k !in t.vals then k == StorageKey(p) && row == p.(probe := Refreshed(p, env.now))
            else if k == StorageKey(p) then SameLife(row, After(t.vals[k], Announced(p.lastSeen, env.now)))
            else if k.hash == p.hash then SameLife(row, After(t.vals[k], Refresh(env.now)))
            else row == t.vals[k]
  {
    hide Insert, After, InScope;
    if k in t.vals {
      assert k == StorageKey(t.vals[k]);
    }
    if k == StorageKey(p) {
      InsertOwn(t, env, p);
    } else {
      InsertOther(t, env, p, k);
      RefreshIs(t.vals[k], env.now);
    }
  }

  lemma RefreshIs(p: Peer, now: Time)
    ensures After(p, Refresh(now)) == p.(probe := Refreshed(p, now))
  {
  }

  lemma KeysFit(t: Table, local: set<Hash>, scope: string)
    requires TableOk(t, local, scope)
    ensures forall l :: l in t.vals ==> l == StorageKey(t.vals[l])
  {
    hide RowOk;
    forall l | l in t.vals
      ensures l == StorageKey(t.vals[l])
    {
      RowKey(local, scope, l, t.vals[l]);
    }
  }

  lemma AllOne(row: Peer, e: Event)
    ensures AfterAll(row, [e]) == After(row, e) && AfterAll(row, []) == row
  {
    hide After;
    assert [e][..0] == [];
  }

  lemma StoredLife(s: Service, scope: string, active: bool, now: Time, peer: Peer, k: Key)
    requires TableOk(s.table, s.local, scope)
    requires k in Store(s.table, s.local, Env(scope, active, now), peer).vals
    ensures var row := Store(s.table, s.local, Env(scope, active, now), peer).vals[k];
            if k in s.table.vals then
              SameLife(row, AfterAll(s.table.vals[k], EventsOf(s, scope, Stored(active, now, peer), k)))
            else
              row.probe.samples == peer.probe.samples && row.probe.avg == peer.probe.avg && row.probe.failures == 0
  {
    hide TableOk, Admitted, Insert, Evict, IsLocal, Superseded, After, InScope;
    var env := Env(scope, active, now);
    if peer.hash != "" && !IsLocal(s.local, peer) {
      if Admitted(s.table, env, peer).Some? {
        var p := Admitted(s.table, env, peer).value;
        KeysFit(s.table, s.local, scope);
        StoreInserts(s.table, s.local, env, peer);
        AdmittedLife(s.table, env, peer);
        AdmittedInScope(s.table, env, peer);
        EvictSubset(s.table, env, p);
        InsertLife(Evict(s.table, env, p), env, p, k);
        AllOne(if k in s.table.vals then s.table.vals[k] else p, Announced(p.lastSeen, now));
        AllOne(if k in s.table.vals then s.table.vals[k] else p, Refresh(now));
        EvictedOut(s.table, env, p, k);
      } else {
        RejectedSubset(s.table, s.local, env, peer);
      }
    }
  }

  /** A row of p's own hash is never evicted for p. */
  lemma EvictedOut(t: Table, env: Env, p: Peer, k: Key)
    ensures k in t.vals && t.vals[k].hash == p.hash ==> k in Evict(t, env, p).vals
    ensures k in Insert(Evict(t, env, p), env, p).vals && k !in Evict(t, env, p).vals ==> k == StorageKey(p)
  {
    hide Merge;
  }

  lemma ProbeLife(s: Service, scope: string, hash: Hash, rtt: Option<int>, ok: bool, now: Time, k: Key)
    requires TableOk(s.table, s.local, scope) && k in s.table.vals
    ensures var t := UpdateProbe(s.table, hash, rtt, ok, now);
            k in t.vals && SameLife(t.vals[k], AfterAll(s.table.vals[k], EventsOf(s, scope, ProbeResult(hash, rtt, ok, now), k)))
  {
    hide TableOk, Probed;
    KeysFit(s.table, s.local, scope);
    var row := s.table.vals[k];
    assert k == StorageKey(row);
    var es := EventsOf(s, scope, ProbeResult(hash, rtt, ok, now), k);
    FailureUntimed(row, rtt, now);
    AllOne(row, if es == [] then Event.RttCleared else es[0]);
    assert es == [] || es == [es[0]];
  }

  /** A failed probe's time is ignored. */
  lemma FailureUntimed(p: Peer, rtt: Option<int>, now: Time)
    ensures Probed(p, rtt, false, now) == Probed(p, None, false, now)
  {
  }

  lemma ClearLife(s: Service, scope: string, hash: Hash, k: Key)
    requires TableOk(s.table, s.local, scope) && k in s.table.vals
    ensures var t := ClearRtt(s.table, hash);
            k in t.vals && SameLife(t.vals[k], AfterAll(s.table.vals[k], EventsOf(s, scope, Step.RttCleared(hash), k)))
  {
    hide TableOk;
    KeysFit(s.table, s.local, scope);
    assert k == StorageKey(s.table.vals[k]);
    AllOne(s.table.vals[k], Event.RttCleared);
  }

  /** One step of the service: an old row undergoes its events, a new one starts without probe history. */
  lemma StepLife(s: Service, scope: string, step: Step, k: Key)
    requires TableOk(s.table, s.local, scope) && Unprobed(step) && k in Next(s, scope, step).table.vals
    ensures var row := Next(s, scope, step).table.vals[k];
            if k in s.table.vals then SameLife(row, AfterAll(s.table.vals[k], EventsOf(s, scope, step, k))) else NewRow(row)
  {
    hide TableOk, Store, UpdateProbe, ClearRtt, After;
    match step
    case Stored(active, now, peer) => StoredLife(s, scope, active, now, peer, k);
    case ProbeResult(hash, rtt, ok, now) => ProbeStep(s, scope, hash, rtt, ok, now, k);
    case RttCleared(hash) => ClearStep(s, scope, hash, k);
    case _ =>
      KeptRow(s, scope, step, k);
      hide Next;
      AllOne(s.table.vals[k], Event.RttCleared);
  }

  lemma KeptRow(s: Service, scope: string, step: Step, k: Key)
    requires !step.Stored? && !step.ProbeResult? && !step.RttCleared? && k in Next(s, scope, step).table.vals
    ensures k in s.table.vals && Next(s, scope, step).table.vals[k] == s.table.vals[k] && EventsOf(s, scope, step, k) == []
  {
    hide Stale, IsLocal, SameLanScope, Stays, Targets, Store, UpdateProbe, ClearRtt;
  }

  lemma ProbeStep(s: Service, scope: string, hash: Hash, rtt: Option<int>, ok: bool, now: Time, k: Key)
    requires TableOk(s.table, s.local, scope) && k in UpdateProbe(s.table, hash, rtt, ok, now).vals
    ensures k in s.table.vals
    ensures SameLife(UpdateProbe(s.table, hash, rtt, ok, now).vals[k],
                     AfterAll(s.table.vals[k], EventsOf(s, scope, ProbeResult(hash, rtt, ok, now), k)))
  {
    hide TableOk, Probed, After;
    assert k in s.table.vals;
    ProbeLife(s, scope, hash, rtt, ok, now, k);
  }

  lemma ClearStep(s: Service, scope: string, hash: Hash, k: Key)
    requires TableOk(s.table, s.local, scope) && k in ClearRtt(s.table, hash).vals
    ensures k in s.table.vals
    ensures SameLife(ClearRtt(s.table, hash).vals[k], AfterAll(s.table.vals[k], EventsOf(s, scope, Step.RttCleared(hash), k)))
  {
    hide TableOk, After;
    assert k in s.table.vals;
    ClearLife(s, scope, hash, k);
  }

  lemma EventsFew(s: Service, scope: string, step: Step, k: Key)
    ensures |EventsOf(s, scope, step, k)| <= 1
  {
    hide Admitted;
  }

  // ----- runs -----

  /** Over any run every row is what its recorded history makes of its first form. */
  lemma {:induction false} LifeTracked(scope: string, steps: seq<Step>, k: Key)
    requires forall i :: 0 <= i < |steps| ==> Unprobed(steps[i])
    requires k in Run(START, scope, steps).table.vals
    ensures var l := LifeOf(scope, steps, k);
            l.Some? && NewRow(l.value.start)
            && SameLife(Run(START, scope, steps).table.vals[k], AfterAll(l.value.start, l.value.events))
    decreases |steps|
  {
    hide Next, Unprobed, NewRow, SameLife, EventsOf, After;
    if steps != [] {
      var n := |steps| - 1;
      var before := steps[..n];
      var s := Run(START, scope, before);
      RunSnoc(START, scope, steps);
      RunOk(START, scope, before);
      StepLife(s, scope, steps[n], k);
      SelfLife(Next(s, scope, steps[n]).table.vals[k]);
      if k in s.table.vals {
        LifeTracked(scope, before, k);
        var l := LifeOf(scope, before, k).value;
        EventsFew(s, scope, steps[n], k);
        AfterMore(l.start, l.events, EventsOf(s, scope, steps[n], k), s.table.vals[k]);
        LifeTrans(Next(s, scope, steps[n]).table.vals[k], AfterAll(s.table.vals[k], EventsOf(s, scope, steps[n], k)),
                  AfterAll(l.start, l.events + EventsOf(s, scope, steps[n], k)));
      }
    }
  }

  lemma SelfLife(p: Peer)
    ensures SameLife(p, AfterAll(p, []))
  {
  }

  lemma LifeTrans(a: Peer, b: Peer, c: Peer)
    requires SameLife(a, b) && SameLife(b, c)
    ensures SameLife(a, c)
  {
  }

  /** After any run, a row that purge_stale_probes drops was announced too long ago, and either enough probes of it
      failed in a row with no answer and no announce of its hash since, or its last round trips were too slow. */
  lemma PurgedAfterRun(scope: string, steps: seq<Step>, k: Key, now: Time, maxRtt: int, staleS: Time, maxFailures: nat)
    returns (l: Life)
    requires forall i :: 0 <= i < |steps| ==> Unprobed(steps[i])
    requires var t := Run(START, scope, steps).table; k in t.vals && k !in PurgeStale(t, now, maxRtt, staleS, maxFailures).vals
    ensures LifeOf(scope, steps, k) == Some(l)
    ensures !IsSerial(l.start) && now - LastAnnounce(l.start.lastSeen, l.events) > staleS
    ensures FailureStreak(l.start.lastSeen, l.events) >= maxFailures
         || exists n :: 3 <= n <= 6 && n <= |RoundTrips(l.events)|
                        && Sum(RoundTrips(l.events)[|RoundTrips(l.events)| - n..]) > maxRtt * n
  {
    hide Next, After, EventsOf;
    LifeTracked(scope, steps, k);
    l := LifeOf(scope, steps, k).value;
    hide LifeOf, Run, AfterAll;
    PurgedOnlyWhenDead(l.start, l.events, now, maxRtt, staleS, maxFailures);
  }
}
