/** The unattended loop (watch.py), as a run of the triage state machine. */
module Watch {
  import opened Wrappers
  import opened Captures
  import opened Store
  import opened CaptureRunner
  import opened ClassifyRunner
  import opened AlertRunner
  import opened Triage
  import Runs

  // ------------------------------------------------- runs of events

  lemma LeadsConcat(s: Setup, w: World, es: seq<Event>, mid: World, fs: seq<Event>, last: World)
    requires Leads(s, w, es, mid) && Leads(s, mid, fs, last)
    ensures Leads(s, w, es + fs, last)
  {
    Runs.LeadsConcat(Step(s), w, es, mid, fs, last);
  }

  lemma LeadsAround(s: Setup, w: World, e: Event, started: World, es: seq<Event>, done: World, f: Event, last: World)
    requires Leads(s, w, [e], started) && Leads(s, started, es, done) && Leads(s, done, [f], last)
    ensures Leads(s, w, [e] + (es + [f]), last)
  {
    LeadsConcat(s, started, es, done, [f], last);
    LeadsConcat(s, w, [e], started, es + [f], last);
  }

  lemma OneStep(s: Setup, w: World, e: Event) returns (next: World)
    requires Enabled(s, w, e)
    ensures Leads(s, w, [e], next) && next == Apply(s, w, e)
  {
    next := Apply(s, w, e);
    assert [e][1..] == [];
  }

  lemma StillReachable(s: Setup, w: World, es: seq<Event>, next: World)
    requires Leads(s, w, es, next)
    ensures Reachable(s, w) ==> Reachable(s, next)
  {
    if Reachable(s, w) {
      var before :| Leads(s, Start(), before, w);
      LeadsConcat(s, Start(), before, w, es, next);
    }
  }

  /** The world after some flushes. */
  function Flushed(s: Setup, w: World, batches: seq<seq<Sighting>>): World {
    w.(db := WriteBatches(w.db, s.threshold, batches))
  }

  lemma {:induction false} FlushEvents(s: Setup, w: World, batches: seq<seq<Sighting>>) returns (es: seq<Event>)
    ensures Leads(s, w, es, Flushed(s, w, batches))
  {
    es := [];
    if batches != [] {
      var front, last := batches[..|batches| - 1], batches[|batches| - 1];
      es := FlushEvents(s, w, front);
      var next := OneStep(s, Flushed(s, w, front), Flush(last));
      LeadsConcat(s, w, es, Flushed(s, w, front), [Flush(last)], next);
      es := es + [Flush(last)];
    }
  }

  /**
   * A capture run is one visit, with the flushes that happened while it lasted. Over schemes that make no URL, or
   * broken off in the import, it is left without a row.
   */
  lemma VisitEvents(s: Setup, w: World, begin: Event, jobId: string, hosts: seq<string>, visit: Visit,
                    flushes: seq<seq<Sighting>>, now: int, ok: nat -> bool)
    returns (es: seq<Event>, last: World)
    requires Enabled(s, w, begin) && Apply(s, w, begin) == Begin(s, w, jobId, hosts)
    ensures Leads(s, w, es, last) && last.stage.Idle?
    ensures last.db == AfterRun(w.db, s.threshold, s.decode, s.capture, jobId, hosts, visit, flushes, now, ok)
  {
    var started := OneStep(s, w, begin);
    var mid := FlushEvents(s, started, flushes);
    var flushed := Flushed(s, started, flushes);
    var h := HostFor(s.decode, s.capture, started.stage.job, visit);
    var end := if SavesNothing(h, s.capture, visit.file) then LeaveStage else EndVisit(visit, now, ok);
    last := OneStep(s, flushed, end);
    LeadsAround(s, w, begin, started, mid, flushed, end, last);
    es := [begin] + (mid + [end]);
  }

  /** One capture judged: what is flushed while the model is awaited, then the verdict. */
  lemma ClassifyOneEvents(s: Setup, w: World, c: Classifier) returns (es: seq<Event>, next: World)
    requires Enabled(s, w, ClassifyNext(c))
    ensures Leads(s, w, es, next) && next.stage == w.stage.(todo := w.stage.todo[1..])
    ensures var id := w.stage.todo[0];
            && next.db == AddVerdict(WriteBatches(w.db, s.threshold, FlushedFor(c, id, w.db.captures[id])),
                                     RowFor(c, id, w.db.captures[id]))
            && next.db.captures == w.db.captures
  {
    var id := w.stage.todo[0];
    var batches := FlushedFor(c, id, w.db.captures[id]);
    var before := FlushEvents(s, w, batches);
    FlushKeepsVerdicts(w.db, s.threshold, batches);
    next := OneStep(s, Flushed(s, w, batches), ClassifyNext(c));
    LeadsConcat(s, w, before, Flushed(s, w, batches), [ClassifyNext(c)], next);
    es := before + [ClassifyNext(c)];
  }

  /** The state after the first `n` captures of a classification run. */
  ghost predicate Classified(s: Setup, w: World, c: Classifier, ids: seq<nat>, n: nat, next: World)
    requires n <= |ids| && forall i :: 0 <= i < |ids| ==> ids[i] in w.db.captures
  {
    && next.stage == Classifying(c.backend, c.model, ids[n..]) && next.db.captures == w.db.captures
    && next.db == AfterClassifying(w.db, s.threshold, c, w.db.captures, ids[..n])
  }

  /** The classifier looks for screenshots where the captures are put. */
  predicate Asks(s: Setup, c: Classifier) {
    c.capturesDir == s.capture.outputDir
  }

  lemma ClassifyMore(s: Setup, w: World, c: Classifier, ids: seq<nat>, n: nat, mid: World)
    returns (es: seq<Event>, next: World)
    requires n < |ids| && (forall i :: 0 <= i < |ids| ==> ids[i] in w.db.captures) && Classified(s, w, c, ids, n, mid)
    requires Asks(s, c)
    ensures Leads(s, mid, es, next) && Classified(s, w, c, ids, n + 1, next)
  {
    assert ids[n..][0] == ids[n] && ids[n..][1..] == ids[n + 1..];
    es, next := ClassifyOneEvents(s, mid, c);
    OneMoreClassified(w.db, s.threshold, c, ids, n, mid.db, next.db);
  }

  lemma NoneClassified(s: Setup, w: World, c: Classifier, ids: seq<nat>)
    requires w.stage == Classifying(c.backend, c.model, ids) && forall i :: 0 <= i < |ids| ==> ids[i] in w.db.captures
    ensures Leads(s, w, [], w) && Classified(s, w, c, ids, 0, w)
  {
    assert ids[0..] == ids && ids[..0] == [];
  }

  lemma {:induction false} ClassifyEvents(s: Setup, w: World, c: Classifier, ids: seq<nat>, n: nat)
    returns (es: seq<Event>, next: World)
    requires w.stage == Classifying(c.backend, c.model, ids) && n <= |ids| && Asks(s, c)
    requires forall i :: 0 <= i < |ids| ==> ids[i] in w.db.captures
    ensures Leads(s, w, es, next) && Classified(s, w, c, ids, n, next)
  {
    es, next := [], w;
    if n == 0 {
      NoneClassified(s, w, c, ids);
    } else {
      var before, mid := ClassifyEvents(s, w, c, ids, n - 1);
      es, next := ClassifyOnto(s, w, c, ids, n - 1, before, mid);
    }
  }

  lemma ClassifyOnto(s: Setup, w: World, c: Classifier, ids: seq<nat>, n: nat, before: seq<Event>, mid: World)
    returns (es: seq<Event>, next: World)
    requires n < |ids| && (forall i :: 0 <= i < |ids| ==> ids[i] in w.db.captures) && Asks(s, c)
    requires Leads(s, w, before, mid) && Classified(s, w, c, ids, n, mid)
    ensures Leads(s, w, es, next) && Classified(s, w, c, ids, n + 1, next)
  {
    var more;
    more, next := ClassifyMore(s, w, c, ids, n, mid);
    LeadsConcat(s, w, before, mid, more, next);
    es := before + more;
  }

  lemma OneMoreClassified(db: Db, threshold: real, c: Classifier, ids: seq<nat>, i: nat, mid: Db, next: Db)
    requires i < |ids| && forall j :: 0 <= j < |ids| ==> ids[j] in db.captures
    requires mid == AfterClassifying(db, threshold, c, db.captures, ids[..i])
    requires var row := db.captures[ids[i]];
             next == AddVerdict(WriteBatches(mid, threshold, FlushedFor(c, ids[i], row)), RowFor(c, ids[i], row))
    ensures next == AfterClassifying(db, threshold, c, db.captures, ids[..i + 1])
  {
    ClassifyStep(db, threshold, c, db.captures, ids, i);
  }

  // ------------------------------------------------- run_cycle

  datatype Stop = StoreUnreadable | Fine

  /** What one capture stage runs into. */
  datatype Capturing = Capturing(stop: Stop, jobId: string, visit: Visit, flushes: seq<seq<Sighting>>, cutoff: int,
                                 now: int, ok: nat -> bool)

  datatype Feed = Feed(entries: Option<seq<FeedEntry>>, perCycle: int, oldest: int, never: int, run: Capturing)

  /** What a classification stage meets: `saves` says of which captures a verdict can be had and saved. */
  datatype Judging = Judging(stop: Stop, classifier: Classifier, limit: nat, saves: nat -> bool)

  /** What an alert stage meets: `marks` says of which findings the store can record that they were sent. */
  datatype Alerting = Alerting(stop: Stop, sinks: seq<string>, accepts: Accepts, limit: nat, clock: nat -> int,
                               marks: nat -> bool)

  /**
   * Everything one cycle meets. A stage whose store is unreadable raises before it does anything; a later failure
   * breaks the stage off where it happens.
   */
  datatype Cycle = Cycle(alerts: Capturing, feed: Option<Feed>, judging: Judging, alerting: Alerting)

  /** How a cycle went: the worlds before and after its classification stage, both pages, and how far each got. */
  datatype Trace = Trace(before: World, ids: seq<nat>, saved: nat, judged: World, page: seq<nat>, sent: nat)

  ghost predicate StageJudged(s: Setup, j: Judging, w: World, ids: seq<nat>, saved: nat, last: World) {
    if j.stop.StoreUnreadable? then last == w
    else
      && IsPage(ids, PendingCaptureIds(w.db, j.classifier.backend, j.classifier.model), CaptureOrder(w.db.captures),
                j.limit)
      && (forall i :: 0 <= i < |ids| ==> ids[i] in w.db.captures) && SavedUpTo(ids, j.saves, saved)
      && last.db == AfterBreak(w.db, s.threshold, j.classifier, w.db.captures, ids, saved)
  }

  ghost predicate StageAlerted(s: Setup, a: Alerting, w: World, page: seq<nat>, sent: nat, last: World) {
    if a.stop.StoreUnreadable? || a.sinks == [] then last == w
    else
      && IsPage(page, PendingAlertIds(w.db, s.policy), AlertOrder(w.db.verdicts), a.limit)
      && GotTo(a.sinks, a.accepts, page, a.marks, sent)
      && last.db == MarkAll(w.db, Announced(a.sinks, a.accepts, page, sent), a.clock)
  }

  datatype CycleStats = CycleStats(captured: nat, classified: nat, notified: nat, failedStages: nat)

  method CaptureStage(store: MatchStore, s: Setup, run: Capturing, targets: Option<seq<string>>, ghost w: World)
    returns (captured: nat, failed: nat, ghost es: seq<Event>, ghost last: World)
    requires w.stage.Idle? && w.db == store.Snapshot() && store.alertThreshold == s.threshold
    modifies store
    ensures Leads(s, w, es, last) && last.stage.Idle? && last.db == store.Snapshot()
    ensures failed <= 1 && (run.stop.StoreUnreadable? ==> captured == 0 && failed == 1)
  {
    es, last, captured, failed := [], w, 0, 0;
    if run.stop.StoreUnreadable? {
      failed := 1;
      return;
    }
    var stats, raised;
    ghost var hosts;
    stats, raised, hosts := RunCaptures(store, s.decode, s.capture, None, targets, run.jobId, run.visit, run.flushes,
                                        run.cutoff, run.now, run.ok);
    if hosts != [] {
      ghost var begin := if targets.Some? then BeginFeed(run.jobId, hosts)
                         else BeginAlerts(run.jobId, PageSize(s.capture, None), run.cutoff, hosts);
      es, last := VisitEvents(s, w, begin, run.jobId, hosts, run.visit, run.flushes, run.now, run.ok);
    }
    if raised {
      failed := 1;
    } else {
      captured := stats.attempted;
      failed := if stats.executionFailed then 1 else 0;
    }
  }

  method FeedStage(store: MatchStore, s: Setup, feed: Feed, ghost w: World)
    returns (captured: nat, failed: nat, ghost es: seq<Event>, ghost last: World)
    requires w.stage.Idle? && w.db == store.Snapshot() && store.alertThreshold == s.threshold
    modifies store
    ensures Leads(s, w, es, last) && last.stage.Idle? && last.db == store.Snapshot() && failed <= 1
  {
    es, last, captured, failed := [], w, 0, 0;
    var targets := FreshFeedTargets(store, feed.entries, feed.perCycle, feed.oldest, feed.never);
    if targets != [] {
      captured, failed, es, last := CaptureStage(store, s, feed.run, Some(targets), w);
    }
  }

  method ClassifyStage(store: MatchStore, s: Setup, j: Judging, ghost w: World)
    returns (classified: nat, failed: nat, ghost es: seq<Event>, ghost last: World, ghost ids: seq<nat>,
             ghost saved: nat)
    requires w.stage.Idle? && w.db == store.Snapshot() && store.alertThreshold == s.threshold
    requires Asks(s, j.classifier)
    modifies store
    ensures Leads(s, w, es, last) && last.stage.Idle? && last.db == store.Snapshot()
    ensures StageJudged(s, j, w, ids, saved, last)
    ensures failed == if j.stop.StoreUnreadable? || saved < |ids| then 1 else 0
    ensures failed == 1 ==> classified == 0
  {
    es, last, classified, failed, ids, saved := [], w, 0, 0, [], 0;
    if j.stop.StoreUnreadable? {
      failed := 1;
      return;
    }
    var stats, raised;
    stats, raised, ids, saved := RunClassifications(store, j.classifier, j.limit, j.saves);
    es, last := ClassifyRunEvents(s, w, j.classifier, j.limit, ids, saved);
    if raised {
      failed := 1;
    } else {
      classified := stats.attempted - stats.failed;
    }
  }

  lemma ClassifyRunEvents(s: Setup, w: World, c: Classifier, limit: nat, ids: seq<nat>, saved: nat)
    returns (es: seq<Event>, last: World)
    requires w.stage.Idle? && Asks(s, c) && saved <= |ids|
    requires IsPage(ids, PendingCaptureIds(w.db, c.backend, c.model), CaptureOrder(w.db.captures), limit)
    requires forall i :: 0 <= i < |ids| ==> ids[i] in w.db.captures
    ensures Leads(s, w, es, last) && last.stage.Idle?
    ensures last.db == AfterBreak(w.db, s.threshold, c, w.db.captures, ids, saved)
  {
    var begin := BeginClassify(c.backend, c.model, limit, ids);
    var started := OneStep(s, w, begin);
    var mid, done := ClassifyEvents(s, started, c, ids, saved);
    var batches := if saved == |ids| then [] else FlushedFor(c, ids[saved], w.db.captures[ids[saved]]);
    var flushes := FlushEvents(s, done, batches);
    LeadsConcat(s, started, mid, done, flushes, Flushed(s, done, batches));
    last := OneStep(s, Flushed(s, done, batches), LeaveStage);
    LeadsAround(s, w, begin, started, mid + flushes, Flushed(s, done, batches), LeaveStage, last);
    es := [begin] + ((mid + flushes) + [LeaveStage]);
  }

  lemma AlertEvents(s: Setup, w: World, a: Alerting, page: seq<nat>, sent: nat) returns (es: seq<Event>, last: World)
    requires w.stage.Idle? && IsPage(page, PendingAlertIds(w.db, s.policy), AlertOrder(w.db.verdicts), a.limit)
    requires GotTo(a.sinks, a.accepts, page, a.marks, sent)
    ensures Leads(s, w, es, last) && last.stage.Idle?
    ensures last.db == MarkAll(w.db, Announced(a.sinks, a.accepts, page, sent), a.clock)
    ensures sent == |page| ==> |last.told| == |w.told| + |Announced(a.sinks, a.accepts, page, sent)|
  {
    var e := Announce(AlertPage(a.sinks, a.accepts, a.limit, page, a.clock), sent, sent < |page|);
    last := OneStep(s, w, e);
    es := [e];
  }

  method AlertStage(store: MatchStore, s: Setup, a: Alerting, ghost w: World)
    returns (notified: nat, failed: nat, ghost es: seq<Event>, ghost last: World, ghost page: seq<nat>, ghost sent: nat)
    requires w.stage.Idle? && w.db == store.Snapshot() && store.alertThreshold == s.threshold
    modifies store
    ensures Leads(s, w, es, last) && last.stage.Idle? && last.db == store.Snapshot()
    ensures StageAlerted(s, a, w, page, sent, last)
    ensures failed == if a.stop.StoreUnreadable? || sent < |page| then 1 else 0
    ensures failed == 0 ==> |last.told| == |w.told| + notified
    ensures failed == 1 ==> notified == 0
  {
    es, last, notified, failed, page, sent := [], w, 0, 0, [], 0;
    if a.stop.StoreUnreadable? {
      failed := 1;
      return;
    }
    var stats, raised;
    stats, raised, page, sent := RunAlerts(store, a.sinks, s.policy, a.limit, a.accepts, a.clock, a.marks);
    if a.sinks != [] {
      es, last := AlertEvents(s, w, a, page, sent);
    }
    if raised {
      failed := 1;
    } else {
      notified := stats.sent;
    }
  }

  /**
   * `run_cycle`: whatever its stages run into, one cycle is a run of the state machine, and its last two stages work
   * on what the ones before them left.
   */
  method RunCycle(store: MatchStore, s: Setup, cycle: Cycle, ghost w: World)
    returns (stats: CycleStats, ghost es: seq<Event>, ghost last: World, ghost t: Trace)
    requires w.stage.Idle? && w.db == store.Snapshot() && store.alertThreshold == s.threshold
    requires Asks(s, cycle.judging.classifier)
    modifies store
    ensures Leads(s, w, es, last) && last.stage.Idle? && last.db == store.Snapshot()
    ensures Reachable(s, w) ==> Reachable(s, t.before)
    ensures StageJudged(s, cycle.judging, t.before, t.ids, t.saved, t.judged)
    ensures StageAlerted(s, cycle.alerting, t.judged, t.page, t.sent, last)
    ensures stats.failedStages <= if cycle.feed.Some? then 4 else 3
  {
    var captured, failed, more, alsoFailed;
    ghost var next, fs, ids, n;
    captured, failed, es, last := CaptureStage(store, s, cycle.alerts, None, w);
    stats := CycleStats(captured, 0, 0, failed);
    if cycle.feed.Some? {
      more, alsoFailed, fs, next := FeedStage(store, s, cycle.feed.value, last);
      LeadsConcat(s, w, es, last, fs, next);
      es, last := es + fs, next;
      stats := stats.(captured := stats.captured + more, failedStages := stats.failedStages + alsoFailed);
    }
    more, alsoFailed, fs, next, ids, n := ClassifyStage(store, s, cycle.judging, last);
    t := Trace(last, ids, n, next, [], 0);
    StillReachable(s, w, es, last);
    LeadsConcat(s, w, es, last, fs, next);
    es, last := es + fs, next;
    stats := stats.(classified := more, failedStages := stats.failedStages + alsoFailed);
    more, alsoFailed, fs, next, ids, n := AlertStage(store, s, cycle.alerting, last);
    t := t.(page := ids, sent := n);
    LeadsConcat(s, w, es, last, fs, next);
    es, last := es + fs, next;
    stats := stats.(notified := more, failedStages := stats.failedStages + alsoFailed);
  }

  /**
   * `watch` for a bounded number of cycles: `ingesting(i)` is whether the ingest task is still running before
   * cycle `i`, and `asleep(i)` what it flushes while the loop sleeps after it. If it still runs when the loop ends it
   * is cancelled, and flushes what it had `buffered`. The database stays that of a reachable state.
   */
  method RunWatch(store: MatchStore, s: Setup, cycles: nat, cycle: nat -> Cycle, ingesting: nat -> bool,
                  asleep: nat -> seq<seq<Sighting>>, buffered: seq<Sighting>, ghost first: World)
    returns (completed: nat, stopped: bool, ghost looped: World, ghost last: World)
    requires store.alertThreshold == s.threshold
    requires Reachable(s, first) && first.stage.Idle? && first.db == store.Snapshot()
    requires forall i :: 0 <= i < cycles ==> Asks(s, cycle(i).judging.classifier)
    modifies store
    ensures completed <= cycles && (completed == cycles || (stopped && !ingesting(completed)))
    ensures Reachable(s, looped)
    ensures Reachable(s, last) && last.db == store.Snapshot()
    ensures last == if ingesting(completed) then Flushed(s, looped, [buffered]) else looped
  {
    completed, stopped, last := 0, false, first;
    ghost var es: seq<Event> :| Leads(s, Start(), es, first);
    while completed < cycles && !stopped
      invariant completed <= cycles && (stopped ==> completed < cycles && !ingesting(completed))
      invariant last.stage.Idle? && last.db == store.Snapshot()
      invariant Leads(s, Start(), es, last)
      decreases cycles - completed, !stopped
    {
      if !ingesting(completed) {
        stopped := true;
      } else {
        ghost var fs, next, t;
        var stats;
        stats, fs, next, t := RunCycle(store, s, cycle(completed), last);
        LeadsConcat(s, Start(), es, last, fs, next);
        es, last := es + fs, next;
        if completed + 1 < cycles {
          es, last := AwaitFlushes(store, s, asleep(completed), es, last);
        }
        completed := completed + 1;
      }
    }
    looped := last;
    if ingesting(completed) {
      es, last := AwaitFlushes(store, s, [buffered], es, last);
    }
  }

  /** What is flushed while the loop waits goes on a run. */
  method AwaitFlushes(store: MatchStore, s: Setup, batches: seq<seq<Sighting>>, ghost es: seq<Event>, ghost w: World)
    returns (ghost longer: seq<Event>, ghost next: World)
    requires w.db == store.Snapshot() && store.alertThreshold == s.threshold && Leads(s, Start(), es, w)
    modifies store
    ensures next == Flushed(s, w, batches) && next.db == store.Snapshot() && Leads(s, Start(), longer, next)
  {
    ghost var fs := FlushEvents(s, w, batches);
    Await(store, batches);
    next := Flushed(s, w, batches);
    LeadsConcat(s, Start(), es, w, fs, next);
    longer := es + fs;
  }

  // ------------------------------------------------- the interval is the detection latency

  /** A capture waiting to be judged that the model will call a finding. */
  ghost predicate WillBeFound(db: Db, c: Classifier, p: Policy, id: nat) {
    && id in PendingCaptureIds(db, c.backend, c.model) && OfflineVerdict(c, id, db.captures[id]).None?
    && c.answer(id).Judged? && c.answer(id).verdict.kind in p.labels
    && c.answer(id).verdict.confidence >= p.minConfidence
    && KnownByScoring(db.matches, db.captures[id].result.fqdn)
  }

  lemma FindingIsPending(db: Db, threshold: real, c: Classifier, p: Policy, ids: seq<nat>, limit: nat, id: nat)
    returns (v: nat)
    requires UniqueVerdicts(db) && VerdictsNumbered(db) && WillBeFound(db, c, p, id)
    requires IsPage(ids, PendingCaptureIds(db, c.backend, c.model), CaptureOrder(db.captures), limit)
    requires limit >= |PendingCaptureIds(db, c.backend, c.model)|
    requires forall i :: 0 <= i < |ids| ==> ids[i] in db.captures
    ensures var judged := AfterClassifying(db, threshold, c, db.captures, ids);
            v in PendingAlertIds(judged, p) && judged.verdicts[v].captureId == id
  {
    FullPage(ids, PendingCaptureIds(db, c.backend, c.model), CaptureOrder(db.captures), limit);
    var i :| 0 <= i < |ids| && ids[i] == id;
    var batches, rows := FlushedDuring(c, db.captures, ids), RowsFor(c, db.captures, ids);
    var flushed := WriteBatches(db, threshold, batches);
    FlushKeepsVerdicts(db, threshold, batches);
    FlushKnows(db, threshold, batches, db.captures[id].result.fqdn);
    RowsAnswer(c, db.captures, ids);
    assert Answers(flushed, c.backend, c.model, ids, rows);
    v := AnswerIsStored(flushed, c.backend, c.model, ids, rows, i);
    AnswersSettle(flushed, c.backend, c.model, ids, rows);
    VerdictsOnly(flushed, rows);
  }

  lemma {:induction false} VerdictsOnly(db: Db, rows: seq<VerdictRow>)
    ensures AddVerdicts(db, rows).matches == db.matches && AddVerdicts(db, rows).captures == db.captures
  {
    if rows != [] { VerdictsOnly(db, rows[..|rows| - 1]); }
  }

  lemma FlushKnows(db: Db, threshold: real, batches: seq<seq<Sighting>>, fqdn: string)
    requires KnownByScoring(db.matches, fqdn)
    ensures KnownByScoring(WriteBatches(db, threshold, batches).matches, fqdn)
  {
    BatchingInvisible(db, threshold, batches);
    InsertKeeps(db.matches, threshold, Flat(batches));
    var k :| k in db.matches && k.fqdn == fqdn;
    assert k in WriteBatches(db, threshold, batches).matches;
  }

  /** Nothing broke the stage off, and it had room. */
  ghost predicate AllJudged(j: Judging, w: World) {
    && j.stop.Fine? && (forall id :: j.saves(id))
    && j.limit >= |PendingCaptureIds(w.db, j.classifier.backend, j.classifier.model)|
  }

  /** Nothing broke the stage off, it had room, and one sink works. */
  ghost predicate AllAlerted(s: Setup, a: Alerting, w: World) {
    && a.stop.Fine? && (forall v :: a.marks(v)) && OneSinkWorks(a.sinks, a.accepts)
    && a.limit >= |PendingAlertIds(w.db, s.policy)|
  }

  /**
   * The interval is the detection latency: a site captured before the classification stage of a cycle, and found by the
   * model in it, is announced by the end of that cycle. The requirements on `t` and `last` are what `RunCycle` ensures.
   */
  lemma FoundAndAnnouncedInOneCycle(s: Setup, cycle: Cycle, t: Trace, last: World, id: nat) returns (v: nat)
    requires PlainPath(s.capture.outputDir) && Reachable(s, t.before)
    requires StageJudged(s, cycle.judging, t.before, t.ids, t.saved, t.judged)
    requires StageAlerted(s, cycle.alerting, t.judged, t.page, t.sent, last)
    requires AllJudged(cycle.judging, t.before) && AllAlerted(s, cycle.alerting, t.judged)
    requires WillBeFound(t.before.db, cycle.judging.classifier, s.policy, id)
    ensures v in last.db.verdicts && last.db.verdicts[v].captureId == id
    ensures last.db.verdicts[v].alertedAt == Some(cycle.alerting.clock(v))
  {
    ReachableUnique(s, t.before);
    v := StageFinds(s, cycle.judging, t.before, t.ids, t.saved, t.judged, id);
    StageAnnounces(s, cycle.alerting, t.judged, t.page, t.sent, last, v);
  }

  lemma StageAnnounces(s: Setup, a: Alerting, w: World, page: seq<nat>, sent: nat, last: World, v: nat)
    requires StageAlerted(s, a, w, page, sent, last) && AllAlerted(s, a, w) && v in PendingAlertIds(w.db, s.policy)
    ensures v in last.db.verdicts && last.db.verdicts[v] == w.db.verdicts[v].(alertedAt := Some(a.clock(v)))
  {
    PageIsAnnounced(a, s.policy, w.db, page, v);
  }

  lemma ReachableUnique(s: Setup, w: World)
    requires PlainPath(s.capture.outputDir) && Reachable(s, w)
    ensures UniqueVerdicts(w.db) && VerdictsNumbered(w.db)
  {
    ReachableInv(s, w);
  }

  lemma StageFinds(s: Setup, j: Judging, w: World, ids: seq<nat>, saved: nat, last: World, id: nat) returns (v: nat)
    requires UniqueVerdicts(w.db) && VerdictsNumbered(w.db) && WillBeFound(w.db, j.classifier, s.policy, id)
    requires StageJudged(s, j, w, ids, saved, last) && AllJudged(j, w)
    ensures v in PendingAlertIds(last.db, s.policy) && last.db.verdicts[v].captureId == id
  {
    assert ids[..|ids|] == ids;
    v := FindingIsPending(w.db, s.threshold, j.classifier, s.policy, ids, j.limit, id);
  }

  lemma PageIsAnnounced(a: Alerting, p: Policy, db: Db, page: seq<nat>, v: nat)
    requires IsPage(page, PendingAlertIds(db, p), AlertOrder(db.verdicts), a.limit)
    requires a.limit >= |PendingAlertIds(db, p)|
    requires OneSinkWorks(a.sinks, a.accepts) && v in PendingAlertIds(db, p)
    ensures var after := MarkAll(db, Announced(a.sinks, a.accepts, page, |page|), a.clock);
            v in after.verdicts && after.verdicts[v] == db.verdicts[v].(alertedAt := Some(a.clock(v)))
  {
    FullPage(page, PendingAlertIds(db, p), AlertOrder(db.verdicts), a.limit);
    assert v in Elements(page);
    AllAnnounced(a.sinks, a.accepts, page, |page|);
    assert page[..|page|] == page;
    MarkedRows(db, page, a.clock);
  }
}
