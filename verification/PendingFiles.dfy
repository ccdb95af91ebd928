/** Per-link queues of announced files waiting for their data. */
module PendingFiles {
  import opened Collections
  import opened LinkChoice

  /** One file announcement. serial is its arrival number, which tells equal announcements apart. */
  datatype Announcement = Announcement(serial: nat, msgId: string, fileName: string)

  type Queues = Dict<LinkId, seq<Announcement>>

  /** arrived and gone record the run: every announcement received, and every one taken out, in order. */
  datatype PState = PState(pending: Queues, arrived: seq<Announcement>, gone: seq<Announcement>)

  function QueueOf(q: Queues, l: LinkId): seq<Announcement> {
    if l in q.vals then q.vals[l] else []
  }

  predicate Cancelled(a: Announcement, transferId: string, fileName: string) {
    || (transferId != "" && a.msgId == transferId)
    || (fileName != "" && a.fileName == fileName)
  }

  datatype Step =
    | Arrive(link: LinkId, msgId: string, fileName: string)
    | Dequeue(link: LinkId)
    | Migrate(from: LinkId, into: LinkId)
    | Flush(link: LinkId)
    | Cancel(link: LinkId, transferId: string, file: string)

  function Next(s: PState, step: Step): PState {
    match step
    case Arrive(l, id, name) =>
      var a := Announcement(|s.arrived|, id, name);
      s.(pending := Put(s.pending, l, QueueOf(s.pending, l) + [a]), arrived := s.arrived + [a])
    case Dequeue(l) =>
      var q := QueueOf(s.pending, l);
      if q == [] then s else s.(pending := Put(s.pending, l, q[1..]), gone := s.gone + [q[0]])
    case Migrate(from, into) =>
      if from == into then s
      else
        var q := QueueOf(s.pending, from);
        var rest := Remove(s.pending, from);
        s.(pending := if q == [] then rest else Put(rest, into, QueueOf(rest, into) + q))
    case Flush(l) =>
      s.(pending := Remove(s.pending, l), gone := s.gone + QueueOf(s.pending, l))
    case Cancel(l, id, name) =>
      var q := QueueOf(s.pending, l);
      s.(pending := Put(s.pending, l, Filter(q, (a: Announcement) => !Cancelled(a, id, name))),
         gone := s.gone + Filter(q, (a: Announcement) => Cancelled(a, id, name)))
  }

  function Run(s: PState, steps: seq<Step>): PState
    decreases |steps|
  {
    if steps == [] then s else Run(Next(s, steps[0]), steps[1..])
  }

  const START := PState(RawDict([], map[]), [], [])

  // ----- counting what is pending -----

  function Held(vals: map<LinkId, seq<Announcement>>, l: LinkId): seq<Announcement> {
    if l in vals then vals[l] else []
  }

  ghost function Total(keys: seq<LinkId>, vals: map<LinkId, seq<Announcement>>): multiset<Announcement> {
    if keys == [] then multiset{} else multiset(Held(vals, keys[0])) + Total(keys[1..], vals)
  }

  ghost function Pending(q: Queues): multiset<Announcement> {
    Total(q.keys, q.vals)
  }

  lemma TotalAgree(keys: seq<LinkId>, a: map<LinkId, seq<Announcement>>, b: map<LinkId, seq<Announcement>>)
    requires forall k :: k in keys ==> Held(a, k) == Held(b, k)
    ensures Total(keys, a) == Total(keys, b)
  {
    if keys != [] {
      assert keys[0] in keys;
      assert Held(a, keys[0]) == Held(b, keys[0]);
      TotalAgree(keys[1..], a, b);
    }
  }

  lemma {:induction false} TotalSnoc(keys: seq<LinkId>, k: LinkId, vals: map<LinkId, seq<Announcement>>)
    ensures Total(keys + [k], vals) == Total(keys, vals) + multiset(Held(vals, k))
  {
    if keys == [] {
      assert [k][1..] == [] && Total([k][1..], vals) == multiset{};
    } else {
      assert (keys + [k])[1..] == keys[1..] + [k];
      TotalSnoc(keys[1..], k, vals);
    }
  }

  lemma Reorder<T>(a: multiset<T>, b: multiset<T>, c: multiset<T>, d: multiset<T>, e: multiset<T>)
    requires b + c == d + e
    ensures (a + b) + c == (a + d) + e
  {
    assert (a + b) + c == a + (b + c);
    assert (a + d) + e == a + (d + e);
  }

  lemma CommonPart<T>(x: multiset<T>, y: multiset<T>, z: multiset<T>, m: multiset<T>)
    requires x + (z + m) == y + m
    ensures x + z == y
  {
    forall e: T
      ensures (x + z)[e] == y[e]
    {
      assert (x + (z + m))[e] == (y + m)[e];
    }
  }

  lemma {:induction false} TotalUpdate(keys: seq<LinkId>, vals: map<LinkId, seq<Announcement>>, k: LinkId, v: seq<Announcement>)
    requires Distinct(keys) && k in keys
    ensures Total(keys, vals[k := v]) + multiset(Held(vals, k)) == Total(keys, vals) + multiset(v)
  {
    var tail := keys[1..];
    if keys[0] == k {
      assert k !in tail;
      TotalAgree(tail, vals, vals[k := v]);
      assert Held(vals[k := v], k) == v;
    } else {
      var after := vals[k := v];
      assert Held(after, keys[0]) == Held(vals, keys[0]);
      assert Total(keys, after) == multiset(Held(after, keys[0])) + Total(tail, after);
      TotalUpdate(tail, vals, k, v);
      Reorder(multiset(Held(after, keys[0])), Total(tail, after), multiset(Held(vals, k)), Total(tail, vals), multiset(v));
    }
  }

  lemma {:induction false} TotalWithout(keys: seq<LinkId>, vals: map<LinkId, seq<Announcement>>, k: LinkId)
    requires Distinct(keys) && k in keys
    ensures Total(Without(keys, k), vals) + multiset(Held(vals, k)) == Total(keys, vals)
  {
    var tail := keys[1..];
    if keys[0] == k {
      assert k !in tail;
      WithoutAbsent(tail, k);
    } else {
      TotalWithout(tail, vals, k);
    }
  }

  lemma PendingPut(q: Queues, l: LinkId, v: seq<Announcement>)
    ensures Pending(Put(q, l, v)) + multiset(QueueOf(q, l)) == Pending(q) + multiset(v)
  {
    if l in q.vals {
      TotalUpdate(q.keys, q.vals, l, v);
    } else {
      TotalAgree(q.keys, q.vals, q.vals[l := v]);
      TotalSnoc(q.keys, l, q.vals[l := v]);
      assert Held(q.vals[l := v], l) == v;
    }
  }

  lemma PendingRemove(q: Queues, l: LinkId)
    ensures Pending(Remove(q, l)) + multiset(QueueOf(q, l)) == Pending(q)
  {
    if l in q.vals {
      var r := Remove(q, l);
      TotalWithout(q.keys, q.vals, l);
      TotalAgree(r.keys, q.vals, r.vals);
    }
  }

  lemma FilterSplits(q: seq<Announcement>, p: Announcement -> bool, np: Announcement -> bool)
    requires forall a :: p(a) == !np(a)
    ensures multiset(Filter(q, p)) + multiset(Filter(q, np)) == multiset(q)
  {
    if q != [] {
      assert q == [q[0]] + q[1..];
      FilterSplits(q[1..], p, np);
    }
  }

  // ----- conservation -----

  /** Every announcement that arrived is pending or gone, as often as it arrived: once. */
  ghost predicate Conserved(s: PState) {
    && (forall i :: 0 <= i < |s.arrived| ==> s.arrived[i].serial == i)
    && multiset(s.arrived) == Pending(s.pending) + multiset(s.gone)
  }

  /** Taking some announcements out of the queues conserves them. */
  lemma TakenOut(s: PState, q: Queues, out: seq<Announcement>)
    requires Conserved(s) && Pending(q) + multiset(out) == Pending(s.pending)
    ensures Conserved(s.(pending := q, gone := s.gone + out))
  {
    var a, b, c := Pending(q), multiset(s.gone), multiset(out);
    assert multiset(s.gone + out) == b + c;
    assert (a + c) + b == a + (b + c);
  }

  lemma ArriveConserves(s: PState, l: LinkId, a: Announcement)
    requires Conserved(s) && a.serial == |s.arrived|
    ensures Conserved(s.(pending := Put(s.pending, l, QueueOf(s.pending, l) + [a]), arrived := s.arrived + [a]))
  {
    hide Pending, QueueOf;
    var q := QueueOf(s.pending, l);
    PendingPut(s.pending, l, q + [a]);
    assert multiset(q + [a]) == multiset{a} + multiset(q);
    var after := Pending(Put(s.pending, l, q + [a]));
    assert Pending(s.pending) + (multiset{a} + multiset(q)) == after + multiset(q);
    CommonPart(Pending(s.pending), after, multiset{a}, multiset(q));
    assert multiset(s.arrived + [a]) == multiset(s.arrived) + multiset{a};
    assert (Pending(s.pending) + multiset(s.gone)) + multiset{a} == (Pending(s.pending) + multiset{a}) + multiset(s.gone);
  }

  lemma KeepPart(s: PState, l: LinkId, kept: seq<Announcement>, out: seq<Announcement>)
    requires Conserved(s) && multiset(QueueOf(s.pending, l)) == multiset(out) + multiset(kept)
    ensures Conserved(s.(pending := Put(s.pending, l, kept), gone := s.gone + out))
  {
    PendingPut(s.pending, l, kept);
    CommonPart(Pending(Put(s.pending, l, kept)), Pending(s.pending), multiset(out), multiset(kept));
    TakenOut(s, Put(s.pending, l, kept), out);
  }

  lemma MigrateConserves(s: PState, from: LinkId, into: LinkId)
    requires Conserved(s) && from != into
    ensures Conserved(Next(s, Migrate(from, into)))
  {
    var q, rest := QueueOf(s.pending, from), Remove(s.pending, from);
    PendingRemove(s.pending, from);
    if q != [] {
      var at := QueueOf(rest, into);
      var after := Pending(Put(rest, into, at + q));
      PendingPut(rest, into, at + q);
      assert multiset(at + q) == multiset(q) + multiset(at);
      CommonPart(Pending(rest), after, multiset(q), multiset(at));
      assert after == Pending(s.pending);
    }
  }

  lemma NextConserves(s: PState, step: Step)
    requires Conserved(s)
    ensures Conserved(Next(s, step))
  {
    hide Conserved, Pending;
    match step
    case Arrive(l, id, name) =>
      ArriveConserves(s, l, Announcement(|s.arrived|, id, name));
    case Dequeue(l) =>
      var q := QueueOf(s.pending, l);
      if q != [] {
        assert q == [q[0]] + q[1..];
        KeepPart(s, l, q[1..], [q[0]]);
      }
    case Migrate(from, into) =>
      if from != into {
        MigrateConserves(s, from, into);
      }
    case Flush(l) =>
      PendingRemove(s.pending, l);
      TakenOut(s, Remove(s.pending, l), QueueOf(s.pending, l));
    case Cancel(l, id, name) =>
      var q := QueueOf(s.pending, l);
      FilterSplits(q, (a: Announcement) => Cancelled(a, id, name), (a: Announcement) => !Cancelled(a, id, name));
      KeepPart(s, l, Filter(q, (a: Announcement) => !Cancelled(a, id, name)),
               Filter(q, (a: Announcement) => Cancelled(a, id, name)));
  }

  lemma {:induction false} RunConserves(s: PState, steps: seq<Step>)
    requires Conserved(s)
    ensures Conserved(Run(s, steps))
    decreases |steps|
  {
    if steps != [] {
      NextConserves(s, steps[0]);
      RunConserves(Next(s, steps[0]), steps[1..]);
    }
  }

  lemma DistinctCountsOne(s: seq<Announcement>, i: nat)
    requires i < |s| && forall j :: 0 <= j < |s| ==> s[j].serial == j
    ensures multiset(s)[s[i]] == 1
  {
    assert s == s[..i] + [s[i]] + s[i + 1..];
    assert s[i] !in s[..i] && s[i] !in s[i + 1..];
  }

  /** Over any run each announcement is in exactly one link's queue once, or was taken out exactly once. */
  lemma ExactlyOnce(steps: seq<Step>, i: nat)
    requires i < |Run(START, steps).arrived|
    ensures var s := Run(START, steps);
            Pending(s.pending)[s.arrived[i]] + multiset(s.gone)[s.arrived[i]] == 1
  {
    RunConserves(START, steps);
    DistinctCountsOne(Run(START, steps).arrived, i);
  }

  // ----- order -----

  ghost predicate BeforeIn(q: seq<Announcement>, a: Announcement, b: Announcement) {
    exists i, j :: 0 <= i < j < |q| && q[i] == a && q[j] == b
  }

  /** a waits before b on one link. */
  ghost predicate Before(s: PState, a: Announcement, b: Announcement) {
    exists l :: l in s.pending.vals && BeforeIn(s.pending.vals[l], a, b)
  }

  lemma BeforeHead(a: Announcement, rest: seq<Announcement>, b: Announcement)
    requires b in rest
    ensures BeforeIn([a] + rest, a, b)
  {
    var k :| 0 <= k < |rest| && rest[k] == b;
    assert ([a] + rest)[0] == a && ([a] + rest)[k + 1] == b;
  }

  lemma BeforeCons(x: Announcement, rest: seq<Announcement>, a: Announcement, b: Announcement)
    requires BeforeIn(rest, a, b)
    ensures BeforeIn([x] + rest, a, b)
  {
    var m, n :| 0 <= m < n < |rest| && rest[m] == a && rest[n] == b;
    assert ([x] + rest)[m + 1] == a && ([x] + rest)[n + 1] == b;
  }

  lemma BeforeSplit(q: seq<Announcement>, a: Announcement, b: Announcement)
    requires BeforeIn(q, a, b)
    ensures q != [] && ((q[0] == a && b in q[1..]) || BeforeIn(q[1..], a, b))
  {
    var i, j :| 0 <= i < j < |q| && q[i] == a && q[j] == b;
    assert q[1..][j - 1] == b;
    if i > 0 {
      assert q[1..][i - 1] == a;
    }
  }

  lemma {:induction false} FilterBefore(q: seq<Announcement>, p: Announcement -> bool, a: Announcement, b: Announcement)
    requires BeforeIn(q, a, b) && p(a) && p(b)
    ensures BeforeIn(Filter(q, p), a, b)
    decreases |q|
  {
    hide BeforeIn;
    BeforeSplit(q, a, b);
    var rest := Filter(q[1..], p);
    if q[0] == a && b in q[1..] {
      BeforeHead(a, rest, b);
    } else {
      FilterBefore(q[1..], p, a, b);
      if p(q[0]) {
        BeforeCons(q[0], rest, a, b);
      }
    }
  }

  lemma BeforeConcat(x: seq<Announcement>, y: seq<Announcement>, a: Announcement, b: Announcement)
    requires BeforeIn(x, a, b) || BeforeIn(y, a, b)
    ensures BeforeIn(x + y, a, b)
  {
    if BeforeIn(x, a, b) {
      var i, j :| 0 <= i < j < |x| && x[i] == a && x[j] == b;
      assert (x + y)[i] == a && (x + y)[j] == b;
    } else {
      var i, j :| 0 <= i < j < |y| && y[i] == a && y[j] == b;
      assert (x + y)[|x| + i] == a && (x + y)[|x| + j] == b;
    }
  }

  /** Two announcements waiting on one link keep their order through every step until one is taken out. */
  lemma OrderKept(s: PState, step: Step, a: Announcement, b: Announcement)
    requires Before(s, a, b)
    ensures Before(Next(s, step), a, b) || a in Next(s, step).gone || b in Next(s, step).gone
  {
    var l :| l in s.pending.vals && BeforeIn(s.pending.vals[l], a, b);
    var q := s.pending.vals[l];
    var r := Next(s, step);
    match step
    case Arrive(m, id, name) =>
      BeforeConcat(q, [Announcement(|s.arrived|, id, name)], a, b);
      assert BeforeIn(r.pending.vals[l], a, b);
    case Dequeue(m) =>
      if m == l && q[0] != a {
        var i, j :| 0 <= i < j < |q| && q[i] == a && q[j] == b;
        assert q[1..][i - 1] == a && q[1..][j - 1] == b;
        assert BeforeIn(r.pending.vals[l], a, b);
      } else if m == l {
        assert q[0] in r.gone;
      } else {
        assert BeforeIn(r.pending.vals[l], a, b);
      }
    case Migrate(from, into) =>
      if from != into && l == from {
        BeforeConcat(QueueOf(Remove(s.pending, from), into), q, a, b);
        assert BeforeIn(r.pending.vals[into], a, b);
      } else if from != into && l == into {
        BeforeConcat(q, QueueOf(s.pending, from), a, b);
        assert BeforeIn(r.pending.vals[into], a, b);
      } else {
        assert BeforeIn(r.pending.vals[l], a, b);
      }
    case Flush(m) =>
      if m == l {
        assert a in q && a in r.gone;
      } else {
        assert BeforeIn(r.pending.vals[l], a, b);
      }
    case Cancel(m, id, name) =>
      if m == l && !Cancelled(a, id, name) && !Cancelled(b, id, name) {
        FilterBefore(q, (x: Announcement) => !Cancelled(x, id, name), a, b);
        assert BeforeIn(r.pending.vals[l], a, b);
      } else if m == l {
        assert a in q && b in q;
      } else {
        assert BeforeIn(r.pending.vals[l], a, b);
      }
  }

  /** _pending_files. gone collects what leaves. */
  /** A cancel takes out of the link's queue exactly the announcements of the transfer or file it names, an empty name
      naming none, and touches no other queue. */
  lemma CancelIff(s: PState, l: LinkId, transferId: string, fileName: string, x: LinkId, a: Announcement)
    ensures var r := Next(s, Cancel(l, transferId, fileName));
            var hit := (a.msgId != "" && a.msgId == transferId) || (a.fileName != "" && a.fileName == fileName);
            && (a in QueueOf(r.pending, x) <==> a in QueueOf(s.pending, x) && !(x == l && hit))
            && (a in r.gone <==> a in s.gone || (a in QueueOf(s.pending, l) && hit))
  {
  }

  class PendingTable {
    var pending: Queues
    var arrivals: nat
    ghost var arrived: seq<Announcement>
    ghost var gone: seq<Announcement>

    ghost function State(): PState
      reads this
    {
      PState(pending, arrived, gone)
    }

    constructor ()
      ensures State() == START && arrivals == 0
    {
      pending, arrivals := Empty(), 0;
      arrived, gone := [], [];
    }

    method OnFileAnnounced(l: LinkId, msgId: string, fileName: string)
      requires arrivals == |arrived|
      modifies this
      ensures State() == Next(old(State()), Arrive(l, msgId, fileName)) && arrivals == |arrived|
    {
      var a := Announcement(arrivals, msgId, fileName);
      pending := Put(pending, l, QueueOf(pending, l) + [a]);
      arrived, arrivals := arrived + [a], arrivals + 1;
    }

    method DequeuePendingFile(l: LinkId) returns (a: Option<Announcement>)
      modifies `pending, `gone
      ensures State() == Next(old(State()), Dequeue(l))
      ensures a == if QueueOf(old(pending), l) == [] then None else Some(QueueOf(old(pending), l)[0])
    {
      var q := QueueOf(pending, l);
      if q == [] {
        return None;
      }
      pending := Put(pending, l, q[1..]);
      gone := gone + [q[0]];
      return Some(q[0]);
    }

    method MigratePendingFiles(from: LinkId, into: LinkId)
      modifies `pending
      ensures State() == Next(old(State()), Migrate(from, into))
      ensures from != into ==> QueueOf(pending, into) == QueueOf(old(pending), into) + QueueOf(old(pending), from)
    {
      if from == into {
        return;
      }
      var q := QueueOf(pending, from);
      pending := Remove(pending, from);
      if q != [] {
        pending := Put(pending, into, QueueOf(pending, into) + q);
      }
    }

    method FlushPendingFilesFailed(l: LinkId)
      modifies `pending, `gone
      ensures State() == Next(old(State()), Flush(l))
    {
      gone := gone + QueueOf(pending, l);
      pending := Remove(pending, l);
    }

    method CancelIncoming(l: LinkId, transferId: string, fileName: string)
      modifies `pending, `gone
      ensures State() == Next(old(State()), Cancel(l, transferId, fileName))
    {
      hide Cancelled, Filter;
      var queue := QueueOf(pending, l);
      var kept: seq<Announcement> := [];
      ghost var dropped: seq<Announcement> := [];
      assert queue[..0] == [];
      FilterNone([], (a: Announcement) => !Cancelled(a, transferId, fileName));
      FilterNone([], (a: Announcement) => Cancelled(a, transferId, fileName));
      for i := 0 to |queue|
        invariant kept == Filter(queue[..i], (a: Announcement) => !Cancelled(a, transferId, fileName))
        invariant dropped == Filter(queue[..i], (a: Announcement) => Cancelled(a, transferId, fileName))
        invariant pending == old(pending) && gone == old(gone)
      {
        assert queue[..i + 1] == queue[..i] + [queue[i]];
        FilterSnoc(queue[..i], queue[i], (a: Announcement) => !Cancelled(a, transferId, fileName));
        FilterSnoc(queue[..i], queue[i], (a: Announcement) => Cancelled(a, transferId, fileName));
        if Cancelled(queue[i], transferId, fileName) {
          dropped := dropped + [queue[i]];
        } else {
          kept := kept + [queue[i]];
        }
      }
      assert queue[..|queue|] == queue;
      pending := Put(pending, l, kept);
      gone := gone + dropped;
    }
  }
}
