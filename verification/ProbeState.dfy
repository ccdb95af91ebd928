/** Liveness probes of discovered peers and the purge that acts on them. */
module ProbeState {
  import opened Collections
  import opened PeerRecords
  import opened DiscoveryTable

  const PROBE_AVG_WINDOW := 6
  const FRESH_ANNOUNCE_S: Time := 12.0

  // ----- samples -----

  function Sum(s: seq<int>): int {
    if s == [] then 0 else Sum(s[..|s| - 1]) + s[|s| - 1]
  }

  /** int(a / b): rounds toward zero. */
  function Truncated(a: int, b: nat): int
    requires b > 0
  {
    if a >= 0 then a / b else -((-a) / b)
  }

  function LastSamples(s: seq<int>): seq<int> {
    if |s| <= PROBE_AVG_WINDOW then s else s[|s| - PROBE_AVG_WINDOW..]
  }

  function RollingAvgMs(samples: seq<int>, value: int): seq<int> {
    LastSamples(samples + [value])
  }

  function AvgMs(samples: seq<int>): Option<int> {
    if samples == [] then None else Some(Truncated(Sum(samples), |samples|))
  }

  // ----- one row -----

  predicate JustSeen(p: Peer, now: Time) {
    p.lastSeen != 0.0 && now - p.lastSeen < FRESH_ANNOUNCE_S
  }

  /** update_peer_probe on one row. */
  function Probed(p: Peer, rtt: Option<int>, ok: bool, now: Time): Probe {
    var base := if JustSeen(p, now) then p.probe.(failures := 0, lastOk := p.lastSeen) else p.probe;
    if ok && rtt.Some? then
      var samples := RollingAvgMs(base.samples, rtt.value);
      Probe(samples, AvgMs(samples), 0, now)
    else if !ok && !JustSeen(p, now) then Probe([], None, base.failures + 1, base.lastOk)
    else base
  }

  function WithoutRtt(p: Peer): Probe {
    p.probe.(samples := [], avg := None)
  }

  /** The test of purge_stale_probes. */
  predicate Stale(p: Peer, now: Time, maxRtt: int, staleS: Time, maxFailures: nat) {
    var age := now - p.lastSeen;
    var probeAge := if p.probe.lastOk != 0.0 then now - p.probe.lastOk else age;
    && !IsSerial(p)
    && age > staleS
    && probeAge > staleS
    && (|| (p.probe.avg.Some? && |p.probe.samples| >= 3 && p.probe.avg.value > maxRtt)
        || p.probe.failures >= maxFailures)
  }

  // ----- tables -----

  function UpdateProbe(t: Table, hash: Hash, rtt: Option<int>, ok: bool, now: Time): Table {
    if hash == "" then t
    else Reprobe(t, (e: Peer) => if e.hash == hash then Probed(e, rtt, ok, now) else e.probe)
  }

  function ClearRtt(t: Table, hash: Hash): Table {
    if hash == "" then t else Reprobe(t, (e: Peer) => if e.hash == hash then WithoutRtt(e) else e.probe)
  }

  function PurgeStale(t: Table, now: Time, maxRtt: int, staleS: Time, maxFailures: nat): Table {
    Keep(t, (k: Key, e: Peer) => !Stale(e, now, maxRtt, staleS, maxFailures))
  }

  // ----- a row's history -----

  /** What happens to a stored row: an announce of its own, one stored in another row of its hash, a probe answered with
      or without a time, a failed probe, a cleared RTT. */
  datatype Event =
    | Announced(seen: Time, now: Time)
    | Refresh(now: Time)
    | Answered(rtt: int, at: Time)
    | Untimed(at: Time)
    | Failed(at: Time)
    | RttCleared

  function After(p: Peer, e: Event): Peer {
    match e
    case Announced(seen, now) => var q := p.(lastSeen := seen); q.(probe := Refreshed(q, now))
    case Refresh(now) => p.(probe := Refreshed(p, now))
    case Answered(rtt, at) => p.(probe := Probed(p, Some(rtt), true, at))
    case Untimed(at) => p.(probe := Probed(p, None, true, at))
    case Failed(at) => p.(probe := Probed(p, None, false, at))
    case RttCleared => p.(probe := WithoutRtt(p))
  }

  function AfterAll(p: Peer, events: seq<Event>): Peer {
    if events == [] then p else After(AfterAll(p, events[..|events| - 1]), events[|events| - 1])
  }

  /** Failed probes in a row: an announce of the hash or a timed answer ends the row, and so does any probe that comes within
      the grace period after an announce, which counts as a success. */
  function FailureStreak(start: Time, events: seq<Event>): nat {
    if events == [] then 0
    else
      var before := events[..|events| - 1];
      var seen := LastAnnounce(start, before);
      match events[|events| - 1]
      case Announced(_, _) => 0
      case Refresh(_) => 0
      case Answered(_, _) => 0
      case Failed(at) => if InGrace(seen, at) then 0 else FailureStreak(start, before) + 1
      case Untimed(at) => if InGrace(seen, at) then 0 else FailureStreak(start, before)
      case RttCleared => FailureStreak(start, before)
  }

  predicate InGrace(seen: Time, at: Time) {
    seen != 0.0 && at - seen < FRESH_ANNOUNCE_S
  }

  /** Every round trip measured, in order. */
  function RoundTrips(events: seq<Event>): seq<int> {
    if events == [] then []
    else
      var before := RoundTrips(events[..|events| - 1]);
      match events[|events| - 1]
      case Answered(rtt, _) => before + [rtt]
      case _ => before
  }

  function LastAnnounce(start: Time, events: seq<Event>): Time {
    if events == [] then start
    else match events[|events| - 1]
      case Announced(seen, _) => seen
      case _ => LastAnnounce(start, events[..|events| - 1])
  }

  ghost predicate Suffix(s: seq<int>, whole: seq<int>) {
    |s| <= |whole| && s == whole[|whole| - |s|..]
  }

  /** The row's counters against its history. */
  ghost predicate Tracks(p: Peer, start: Peer, events: seq<Event>) {
    && p.via == start.via
    && p.lastSeen == LastAnnounce(start.lastSeen, events)
    && p.probe.failures == FailureStreak(start.lastSeen, events)
    && |p.probe.samples| <= PROBE_AVG_WINDOW
    && Suffix(p.probe.samples, RoundTrips(events))
    && p.probe.avg == AvgMs(p.probe.samples)
  }

  predicate NewRow(p: Peer) {
    p.probe.samples == [] && p.probe.avg == None && p.probe.failures == 0
  }

  lemma {:induction false} HistoryTracked(p: Peer, events: seq<Event>)
    requires NewRow(p)
    ensures Tracks(AfterAll(p, events), p, events)
  {
    if events != [] {
      var before := events[..|events| - 1];
      HistoryTracked(p, before);
      var q := AfterAll(p, before);
      match events[|events| - 1] {
        case Answered(rtt, at) =>
          var s, w := q.probe.samples, RoundTrips(before);
          assert Suffix(s + [rtt], w + [rtt]);
          assert Suffix(RollingAvgMs(s, rtt), w + [rtt]);
        case _ =>
      }
    }
  }

  lemma TruncatedBound(a: int, b: nat, bound: int)
    requires b > 0 && Truncated(a, b) > bound
    ensures a > bound * b
  {
    if a >= 0 {
      assert a >= (a / b) * b >= (bound + 1) * b;
    } else {
      var q := (-a) / b;
      assert -a < (q + 1) * b;
      assert -(q + 1) >= bound;
      assert -(q + 1) * b >= bound * b;
    }
  }

  /** A row is purged only when not serial, announced too long ago, and either enough probes failed in a row
      with no answer or announce since, or the mean of its last three to six round trips exceeds the bound. */
  lemma PurgedOnlyWhenDead(p: Peer, events: seq<Event>, now: Time, maxRtt: int, staleS: Time, maxFailures: nat)
    requires NewRow(p) && Stale(AfterAll(p, events), now, maxRtt, staleS, maxFailures)
    ensures !IsSerial(p) && now - LastAnnounce(p.lastSeen, events) > staleS
    ensures FailureStreak(p.lastSeen, events) >= maxFailures
         || exists n :: 3 <= n <= 6 && n <= |RoundTrips(events)|
                        && Sum(RoundTrips(events)[|RoundTrips(events)| - n..]) > maxRtt * n
  {
    HistoryTracked(p, events);
    var q := AfterAll(p, events);
    if q.probe.failures < maxFailures {
      TruncatedBound(Sum(q.probe.samples), |q.probe.samples|, maxRtt);
    }
  }

  /** What PurgeStale keeps and drops: serial rows always stay. */
  lemma SerialNeverPurged(t: Table, k: Key, now: Time, maxRtt: int, staleS: Time, maxFailures: nat)
    requires k in t.vals && IsSerial(t.vals[k])
    ensures k in PurgeStale(t, now, maxRtt, staleS, maxFailures).vals
  {
  }
}
