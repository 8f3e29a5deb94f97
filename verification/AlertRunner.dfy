/** Announcing new findings once (alert/runner.py). */
module AlertRunner {
  import opened Wrappers
  import opened Store
  import opened Draining

  /** Whether a sink accepts a verdict's notification: verdict id, then position of the sink. */
  type Accepts = (nat, nat) -> bool

  datatype AlertRunStats = AlertRunStats(considered: nat, sent: nat, failed: nat, bySink: multiset<string>)

  const NOTHING_SENT := AlertRunStats(0, 0, 0, multiset{})

  /** The sinks, of the first `n`, that took a notification. */
  function DeliveredBy(sinks: seq<string>, accepts: Accepts, id: nat, n: nat): seq<string>
    requires n <= |sinks|
  {
    if n == 0 then [] else DeliveredBy(sinks, accepts, id, n - 1) + if accepts(id, n - 1) then [sinks[n - 1]] else []
  }

  predicate Delivered(sinks: seq<string>, accepts: Accepts, id: nat) {
    exists j | 0 <= j < |sinks| :: accepts(id, j)
  }

  /** The ids, of the first `n`, that at least one sink took. */
  function Announced(sinks: seq<string>, accepts: Accepts, ids: seq<nat>, n: nat): seq<nat>
    requires n <= |ids|
  {
    if n == 0 then []
    else if Delivered(sinks, accepts, ids[n - 1]) then Announced(sinks, accepts, ids, n - 1) + [ids[n - 1]]
    else Announced(sinks, accepts, ids, n - 1)
  }

  function Deliveries(sinks: seq<string>, accepts: Accepts, ids: seq<nat>, n: nat): multiset<string>
    requires n <= |ids|
  {
    if n == 0 then multiset{} else
      Deliveries(sinks, accepts, ids, n - 1) + multiset(DeliveredBy(sinks, accepts, ids[n - 1], |sinks|))
  }

  function Refusals(sinks: seq<string>, accepts: Accepts, ids: seq<nat>, n: nat): nat
    requires n <= |ids|
  {
    if n == 0 then 0 else
      Refusals(sinks, accepts, ids, n - 1)
      + (|sinks| - Min(|sinks|, |DeliveredBy(sinks, accepts, ids[n - 1], |sinks|)|))
  }

  function StatsAfter(sinks: seq<string>, accepts: Accepts, ids: seq<nat>, n: nat): AlertRunStats
    requires n <= |ids|
  {
    AlertRunStats(|ids|, |Announced(sinks, accepts, ids, n)|, Refusals(sinks, accepts, ids, n),
                  Deliveries(sinks, accepts, ids, n))
  }

  function MarkAll(db: Db, ids: seq<nat>, clock: nat -> int): Db {
    if ids == [] then db else Alerted(MarkAll(db, ids[..|ids| - 1], clock), ids[|ids| - 1], clock(ids[|ids| - 1]))
  }

  lemma {:induction false} DeliveredIff(sinks: seq<string>, accepts: Accepts, id: nat, n: nat)
    requires n <= |sinks|
    ensures DeliveredBy(sinks, accepts, id, n) != [] <==> exists j :: 0 <= j < n && accepts(id, j)
  {
    if n > 0 { DeliveredIff(sinks, accepts, id, n - 1); }
  }

  /** Tries every sink; one refusal does not stop the next. */
  method Deliver(sinks: seq<string>, accepts: Accepts, id: nat) returns (deliveredBy: seq<string>, refused: nat)
    ensures deliveredBy == DeliveredBy(sinks, accepts, id, |sinks|)
    ensures |deliveredBy| + refused == |sinks|
    ensures deliveredBy != [] <==> Delivered(sinks, accepts, id)
  {
    deliveredBy, refused := [], 0;
    for j := 0 to |sinks|
      invariant deliveredBy == DeliveredBy(sinks, accepts, id, j)
      invariant |deliveredBy| + refused == j
    {
      if accepts(id, j) {
        deliveredBy := deliveredBy + [sinks[j]];
      } else {
        refused := refused + 1;
      }
    }
    DeliveredIff(sinks, accepts, id, |sinks|);
  }

  lemma MarkOneMore(db: Db, ids: seq<nat>, id: nat, clock: nat -> int)
    ensures MarkAll(db, ids + [id], clock) == Alerted(MarkAll(db, ids, clock), id, clock(id))
  {
    assert (ids + [id])[..|ids|] == ids;
  }

  function NextStats(sinks: seq<string>, accepts: Accepts, id: nat, stats: AlertRunStats): AlertRunStats {
    var taken := DeliveredBy(sinks, accepts, id, |sinks|);
    AlertRunStats(stats.considered, stats.sent + if Delivered(sinks, accepts, id) then 1 else 0,
                  stats.failed + (|sinks| - Min(|sinks|, |taken|)), stats.bySink + multiset(taken))
  }

  lemma AnnounceStep(db: Db, sinks: seq<string>, accepts: Accepts, ids: seq<nat>, i: nat, clock: nat -> int)
    requires i < |ids|
    ensures StatsAfter(sinks, accepts, ids, i + 1)
         == NextStats(sinks, accepts, ids[i], StatsAfter(sinks, accepts, ids, i))
    ensures var before := MarkAll(db, Announced(sinks, accepts, ids, i), clock);
            MarkAll(db, Announced(sinks, accepts, ids, i + 1), clock)
            == if Delivered(sinks, accepts, ids[i]) then Alerted(before, ids[i], clock(ids[i])) else before
  {
    MarkOneMore(db, Announced(sinks, accepts, ids, i), ids[i], clock);
  }

  /**
   * One finding: tried on every sink, and marked only if one of them took it. `raised`: the store could not mark it,
   * although a sink has it.
   */
  method AnnounceOne(store: MatchStore, sinks: seq<string>, accepts: Accepts, id: nat, now: int, marks: bool,
                     stats0: AlertRunStats)
    returns (stats: AlertRunStats, raised: bool)
    modifies store
    ensures raised <==> Delivered(sinks, accepts, id) && !marks
    ensures store.Snapshot()
         == if Delivered(sinks, accepts, id) && marks then Alerted(old(store.Snapshot()), id, now)
            else old(store.Snapshot())
    ensures !raised ==> stats == NextStats(sinks, accepts, id, stats0)
  {
    raised := false;
    var deliveredBy, refused := Deliver(sinks, accepts, id);
    stats := stats0.(bySink := stats0.bySink + multiset(deliveredBy), failed := stats0.failed + refused);
    if deliveredBy != [] {
      if !marks {
        raised := true;
        return;
      }
      store.MarkAlerted(id, now);
      stats := stats.(sent := stats.sent + 1);
    }
  }

  /** One turn of the loop, as it moves the whole run forward. */
  method AnnounceNext(store: MatchStore, sinks: seq<string>, accepts: Accepts, ids: seq<nat>, i: nat, clock: nat -> int,
                      marks: bool, stats0: AlertRunStats, ghost start: Db)
    returns (stats: AlertRunStats, raised: bool)
    requires i < |ids| && stats0 == StatsAfter(sinks, accepts, ids, i)
    requires store.Snapshot() == MarkAll(start, Announced(sinks, accepts, ids, i), clock)
    modifies store
    ensures raised <==> Delivered(sinks, accepts, ids[i]) && !marks
    ensures !raised ==> stats == StatsAfter(sinks, accepts, ids, i + 1)
    ensures store.Snapshot() == MarkAll(start, Announced(sinks, accepts, ids, if raised then i else i + 1), clock)
  {
    AnnounceStep(start, sinks, accepts, ids, i, clock);
    stats, raised := AnnounceOne(store, sinks, accepts, ids[i], clock(ids[i]), marks, stats0);
  }

  /** The first `done` findings got through, and the next one, if any, is the first the store could not mark. */
  predicate GotTo(sinks: seq<string>, accepts: Accepts, ids: seq<nat>, marks: nat -> bool, done: nat) {
    && done <= |ids|
    && (forall i :: 0 <= i < done && Delivered(sinks, accepts, ids[i]) ==> marks(ids[i]))
    && (done < |ids| ==> Delivered(sinks, accepts, ids[done]) && !marks(ids[done]))
  }

  /** The loop over findings. */
  method AnnounceAll(store: MatchStore, sinks: seq<string>, accepts: Accepts, ids: seq<nat>, clock: nat -> int,
                     marks: nat -> bool)
    returns (stats: AlertRunStats, raised: bool, ghost done: nat)
    modifies store
    ensures GotTo(sinks, accepts, ids, marks, done) && (raised <==> done < |ids|)
    ensures store.Snapshot() == MarkAll(old(store.Snapshot()), Announced(sinks, accepts, ids, done), clock)
    ensures !raised ==> stats == StatsAfter(sinks, accepts, ids, |ids|)
  {
    stats, raised, done := NOTHING_SENT.(considered := |ids|), false, 0;
    ghost var start := store.Snapshot();
    for i := 0 to |ids|
      invariant done == i
      invariant store.Snapshot() == MarkAll(start, Announced(sinks, accepts, ids, i), clock)
      invariant stats == StatsAfter(sinks, accepts, ids, i)
      invariant forall j :: 0 <= j < i && Delivered(sinks, accepts, ids[j]) ==> marks(ids[j])
    {
      stats, raised := AnnounceNext(store, sinks, accepts, ids, i, clock, marks(ids[i]), stats, start);
      if raised {
        return;
      }
      done := i + 1;
    }
  }

  /** `run_alerts`; `marks` says of which findings the store can record that they were sent. */
  method RunAlerts(store: MatchStore, sinks: seq<string>, p: Policy, limit: nat, accepts: Accepts, clock: nat -> int,
                   marks: nat -> bool)
    returns (stats: AlertRunStats, raised: bool, ghost ids: seq<nat>, ghost done: nat)
    modifies store
    ensures sinks == [] ==> ids == []
    ensures sinks != [] ==> old(IsPage(ids, PendingAlertIds(store.Snapshot(), p), AlertOrder(store.verdicts), limit))
    ensures GotTo(sinks, accepts, ids, marks, done) && (raised <==> done < |ids|)
    ensures store.Snapshot() == MarkAll(old(store.Snapshot()), Announced(sinks, accepts, ids, done), clock)
    ensures !raised ==> stats == StatsAfter(sinks, accepts, ids, |ids|)
  {
    stats, raised, ids, done := NOTHING_SENT, false, [], 0;
    if sinks == [] {
      return;
    }
    var pending := store.PendingAlerts(p, limit);
    ids := pending;
    stats, raised, done := AnnounceAll(store, sinks, accepts, pending, clock, marks);
  }

  /** Every attempt on the first `n` findings. */
  function Tried(sinks: seq<string>, accepts: Accepts, ids: seq<nat>, n: nat): nat
    requires n <= |ids|
  {
    |Deliveries(sinks, accepts, ids, n)| + Refusals(sinks, accepts, ids, n)
  }

  lemma OneMoreAttempt(sinks: seq<string>, accepts: Accepts, ids: seq<nat>, n: nat)
    requires 0 < n <= |ids|
    ensures Tried(sinks, accepts, ids, n) == Tried(sinks, accepts, ids, n - 1) + |sinks|
  {
    DeliveredAtMost(sinks, accepts, ids[n - 1], |sinks|);
  }

  ghost function TriedUpTo(sinks: seq<string>, accepts: Accepts, ids: seq<nat>): nat -> int {
    (m: nat) => if m <= |ids| then Tried(sinks, accepts, ids, m) else 0
  }

  lemma TriedGrows(sinks: seq<string>, accepts: Accepts, ids: seq<nat>, m: nat)
    requires m < |ids|
    ensures TriedUpTo(sinks, accepts, ids)(m + 1) == TriedUpTo(sinks, accepts, ids)(m) + |sinks|
  {
    OneMoreAttempt(sinks, accepts, ids, m + 1);
  }

  /** Each attempt on each sink is either a delivery or a failure. */
  lemma AttemptsAccounted(sinks: seq<string>, accepts: Accepts, ids: seq<nat>, n: nat)
    requires n <= |ids|
    ensures Tried(sinks, accepts, ids, n) == n * |sinks|
  {
    var g := TriedUpTo(sinks, accepts, ids);
    forall m | 0 <= m < n ensures g(m + 1) == g(m) + |sinks| { TriedGrows(sinks, accepts, ids, m); }
    GrowsBy(g, |sinks|, n);
  }

  lemma {:induction false} DeliveredAtMost(sinks: seq<string>, accepts: Accepts, id: nat, n: nat)
    requires n <= |sinks|
    ensures |DeliveredBy(sinks, accepts, id, n)| <= n
  {
    if n > 0 { DeliveredAtMost(sinks, accepts, id, n - 1); }
  }

  // ------------------------------------------------- what a run announces, and what stays pending

  lemma {:induction false} AnnouncedExact(sinks: seq<string>, accepts: Accepts, ids: seq<nat>, n: nat)
    requires n <= |ids| && Distinct(ids)
    ensures var told := Announced(sinks, accepts, ids, n);
            && Distinct(told) && |told| <= n
            && (forall id :: id in told <==> id in ids[..n] && Delivered(sinks, accepts, id))
  {
    if n > 0 {
      AnnouncedExact(sinks, accepts, ids, n - 1);
      assert ids[..n] == ids[..n - 1] + [ids[n - 1]];
      assert ids[n - 1] !in ids[..n - 1];
    }
  }

  /** Ids of this page that every sink refused. */
  function RefusedByAll(sinks: seq<string>, accepts: Accepts, ids: seq<nat>): set<nat> {
    set id | id in ids && !Delivered(sinks, accepts, id)
  }

  /** Everything considered was either sent or refused by every sink. */
  lemma ConsideredAccounted(sinks: seq<string>, accepts: Accepts, ids: seq<nat>)
    requires Distinct(ids)
    ensures |ids| == |Announced(sinks, accepts, ids, |ids|)| + |RefusedByAll(sinks, accepts, ids)|
  {
    var told := Announced(sinks, accepts, ids, |ids|);
    AnnouncedExact(sinks, accepts, ids, |ids|);
    assert ids[..|ids|] == ids;
    DistinctSize(ids);
    DistinctSize(told);
    assert Elements(ids) == Elements(told) + RefusedByAll(sinks, accepts, ids);
  }

  /** Marking changes the marked rows' time of announcement and nothing else. */
  lemma {:induction false} MarkedRows(db: Db, ids: seq<nat>, clock: nat -> int)
    ensures var after := MarkAll(db, ids, clock);
            && after == db.(verdicts := after.verdicts) && after.verdicts.Keys == db.verdicts.Keys
            && forall v :: v in db.verdicts ==>
                 after.verdicts[v] == if v in ids then db.verdicts[v].(alertedAt := Some(clock(v))) else db.verdicts[v]
  {
    if ids != [] {
      MarkedRows(db, ids[..|ids| - 1], clock);
      assert ids == ids[..|ids| - 1] + [ids[|ids| - 1]];
    }
  }

  /** A run takes exactly what it announced off the pending list: what every sink refused stays. */
  lemma PendingAfterMarks(db: Db, p: Policy, ids: seq<nat>, clock: nat -> int)
    ensures PendingAlertIds(MarkAll(db, ids, clock), p) == PendingAlertIds(db, p) - Elements(ids)
  {
    MarkedRows(db, ids, clock);
  }

  /** Some sink takes everything. */
  ghost predicate OneSinkWorks(sinks: seq<string>, accepts: Accepts) {
    exists j :: 0 <= j < |sinks| && AlwaysAccepts(accepts, j)
  }

  ghost predicate AlwaysAccepts(accepts: Accepts, j: nat) {
    forall id :: accepts(id, j)
  }

  lemma {:induction false} AllAnnounced(sinks: seq<string>, accepts: Accepts, ids: seq<nat>, n: nat)
    requires n <= |ids| && OneSinkWorks(sinks, accepts)
    ensures Announced(sinks, accepts, ids, n) == ids[..n]
  {
    if n > 0 {
      AllAnnounced(sinks, accepts, ids, n - 1);
      var j :| 0 <= j < |sinks| && AlwaysAccepts(accepts, j);
      assert accepts(ids[n - 1], j);
      assert ids[..n] == ids[..n - 1] + [ids[n - 1]];
    }
  }

  ghost predicate AlertsPage(db: Db, after: Db, sinks: seq<string>, accepts: Accepts, p: Policy, limit: nat) {
    exists ids, clock ::
      && IsPage(ids, PendingAlertIds(db, p), AlertOrder(db.verdicts), limit)
      && after == MarkAll(db, Announced(sinks, accepts, ids, |ids|), clock)
  }

  lemma PageAnnounced(db: Db, after: Db, sinks: seq<string>, accepts: Accepts, p: Policy, limit: nat)
    requires AlertsPage(db, after, sinks, accepts, p, limit) && OneSinkWorks(sinks, accepts)
    ensures Batch(PendingAlertIds(db, p), PendingAlertIds(after, p), limit)
  {
    var ids, clock :| && IsPage(ids, PendingAlertIds(db, p), AlertOrder(db.verdicts), limit)
                      && after == MarkAll(db, Announced(sinks, accepts, ids, |ids|), clock);
    AllAnnounced(sinks, accepts, ids, |ids|);
    assert ids[..|ids|] == ids;
    PageTakes(ids, PendingAlertIds(db, p), AlertOrder(db.verdicts), limit);
    PendingAfterMarks(db, p, ids, clock);
  }

  function UntoldAt(dbs: seq<Db>, p: Policy): (queues: seq<set<nat>>)
    ensures |queues| == |dbs| && forall j :: 0 <= j < |dbs| ==> queues[j] == PendingAlertIds(dbs[j], p)
  {
    seq(|dbs|, j requires 0 <= j < |dbs| => PendingAlertIds(dbs[j], p))
  }

  /** With one sink that always works, all pending findings are announced after exactly ceil(n / limit) runs. */
  lemma AlertsDrain(dbs: seq<Db>, sinks: seq<string>, accepts: seq<Accepts>, p: Policy, limit: nat, i: nat)
    requires dbs != [] && |accepts| == |dbs| && i < |dbs| && limit > 0
    requires forall j :: 0 < j < |dbs| ==>
               OneSinkWorks(sinks, accepts[j]) && AlertsPage(dbs[j - 1], dbs[j], sinks, accepts[j], p, limit)
    ensures PendingAlertIds(dbs[i], p) == {} <==> i >= CeilDiv(|PendingAlertIds(dbs[0], p)|, limit)
  {
    var queues := UntoldAt(dbs, p);
    forall j | 0 < j < |queues|
      ensures Batch(queues[j - 1], queues[j], limit)
    {
      PageAnnounced(dbs[j - 1], dbs[j], sinks, accepts[j], p, limit);
    }
    Drains(queues, limit, i);
  }
}
