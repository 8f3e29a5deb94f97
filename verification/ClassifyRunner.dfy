/** Classifying stored captures, one verdict each (classify/runner.py). */
module ClassifyRunner {
  import opened Wrappers
  import opened Scoring
  import opened Captures
  import opened Handoff
  import opened Store
  import opened Draining
  import opened CaptureRunner

  /** What `classify_with_retries` comes back with. */
  datatype Answer = Judged(verdict: Verdict) | Failed(error: string)

  /**
   * Everything one run depends on besides the store, by capture: whether a file is still on disk, the
   * classifier's answer, the time, and what the ingest task flushes while the model is awaited.
   */
  datatype Classifier = Classifier(backend: string, model: Option<string>, capturesDir: Path,
                                   onDisk: (nat, Path) -> bool,
                                   answer: nat -> Answer, clock: nat -> int, flushes: nat -> seq<seq<Sighting>>)

  datatype ClassifyRunStats = ClassifyRunStats(attempted: nat, failed: nat, byLabel: multiset<Label>, modelCalls: nat)

  /** `resolve_screenshot`. */
  function ResolveScreenshot(row: CaptureRow, capturesDir: Path): Option<Path> {
    StoredCaptureFile(PosixOption(row.result.screenshot), capturesDir)
  }

  /** `_offline_verdict`. */
  function OfflineVerdict(c: Classifier, id: nat, row: CaptureRow): Option<Verdict> {
    var screenshot := ResolveScreenshot(row, c.capturesDir);
    if !row.result.status.Ok? then
      Some(Verdict(Unreachable, 1.0, None, "Capture failed with status " + StatusText(row.result.status) + "."))
    else if screenshot.None? || !c.onDisk(id, screenshot.value) then
      Some(Verdict(Unknown, 0.0, None, "Screenshot file is missing; cannot classify."))
    else None
  }

  /** The verdict row a capture gets. */
  function RowFor(c: Classifier, id: nat, row: CaptureRow): VerdictRow {
    var offline := OfflineVerdict(c, id, row);
    if offline.Some? then NewVerdict(id, row.result.fqdn, c.backend, c.model, offline, c.clock(id), None)
    else match c.answer(id)
      case Judged(verdict) => NewVerdict(id, row.result.fqdn, c.backend, c.model, Some(verdict), c.clock(id), None)
      case Failed(error) => NewVerdict(id, row.result.fqdn, c.backend, c.model, None, c.clock(id),
                                       Some(error[..Min(|error|, 500)]))
  }

  function RowsFor(c: Classifier, captures: map<nat, CaptureRow>, ids: seq<nat>): (rows: seq<VerdictRow>)
    requires forall i :: 0 <= i < |ids| ==> ids[i] in captures
    ensures |rows| == |ids| && forall i :: 0 <= i < |rows| ==> rows[i] == RowFor(c, ids[i], captures[ids[i]])
  {
    seq(|ids|, i requires 0 <= i < |ids| => RowFor(c, ids[i], captures[ids[i]]))
  }

  function AddVerdicts(db: Db, rows: seq<VerdictRow>): Db {
    if rows == [] then db else AddVerdict(AddVerdicts(db, rows[..|rows| - 1]), rows[|rows| - 1])
  }

  /** Only a call to the model is awaited. */
  function FlushedFor(c: Classifier, id: nat, row: CaptureRow): seq<seq<Sighting>> {
    if OfflineVerdict(c, id, row).Some? then [] else c.flushes(id)
  }

  /** What is flushed while these captures are classified. */
  function FlushedDuring(c: Classifier, captures: map<nat, CaptureRow>, ids: seq<nat>): seq<seq<Sighting>>
    requires forall i :: 0 <= i < |ids| ==> ids[i] in captures
  {
    if ids == [] then [] else
      var last := ids[|ids| - 1];
      FlushedDuring(c, captures, ids[..|ids| - 1]) + FlushedFor(c, last, captures[last])
  }

  lemma {:induction false} BatchesConcat(db: Db, threshold: real, a: seq<seq<Sighting>>, b: seq<seq<Sighting>>)
    ensures WriteBatches(db, threshold, a + b) == WriteBatches(WriteBatches(db, threshold, a), threshold, b)
  {
    if b == [] {
      assert a + b == a;
    } else {
      assert (a + b)[..|a + b| - 1] == a + b[..|b| - 1];
      BatchesConcat(db, threshold, a, b[..|b| - 1]);
    }
  }

  /** Flushes touch other tables than verdicts do, so they may happen in any order. */
  lemma {:induction false} FlushCommutes(db: Db, threshold: real, rows: seq<VerdictRow>, batches: seq<seq<Sighting>>)
    ensures WriteBatches(AddVerdicts(db, rows), threshold, batches)
         == AddVerdicts(WriteBatches(db, threshold, batches), rows)
  {
    if rows != [] {
      FlushCommutes(db, threshold, rows[..|rows| - 1], batches);
      FlushPastOne(AddVerdicts(db, rows[..|rows| - 1]), threshold, rows[|rows| - 1], batches);
    }
  }

  lemma {:induction false} FlushPastOne(db: Db, threshold: real, row: VerdictRow, batches: seq<seq<Sighting>>)
    ensures WriteBatches(AddVerdict(db, row), threshold, batches)
         == AddVerdict(WriteBatches(db, threshold, batches), row)
    ensures WriteBatches(db, threshold, batches).captures == db.captures
    ensures WriteBatches(db, threshold, batches).verdicts == db.verdicts
    ensures WriteBatches(db, threshold, batches).nextVerdict == db.nextVerdict
    ensures WriteBatches(db, threshold, batches).nextCapture == db.nextCapture
  {
    if batches != [] { FlushPastOne(db, threshold, row, batches[..|batches| - 1]); }
  }

  // ------------------------------------------------- run_classifications

  /**
   * One pending capture: judged offline if it can be, else by the model, and its verdict or failure saved. `raised`:
   * the store could not save it, or the model failed in a way the loop does not catch.
   */
  method ClassifyOne(store: MatchStore, c: Classifier, row: PendingClassification, saves: bool,
                     stats0: ClassifyRunStats)
    returns (stats: ClassifyRunStats, raised: bool)
    modifies store
    ensures raised <==> !saves
    ensures var flushed := WriteBatches(old(store.Snapshot()), store.alertThreshold,
                                        FlushedFor(c, row.captureId, row.capture));
            store.Snapshot() == if saves then AddVerdict(flushed, RowFor(c, row.captureId, row.capture)) else flushed
    ensures stats.attempted == stats0.attempted + 1
    ensures stats.failed + |stats.byLabel| == stats0.failed + |stats0.byLabel| + 1
    ensures stats.failed == stats0.failed
            + if OfflineVerdict(c, row.captureId, row.capture).None? && c.answer(row.captureId).Failed? then 1 else 0
    ensures OfflineVerdict(c, row.captureId, row.capture).Some? || c.answer(row.captureId).Judged? ==>
              stats.byLabel == stats0.byLabel + multiset{RowFor(c, row.captureId, row.capture).kind}
  {
    stats, raised := stats0.(attempted := stats0.attempted + 1), !saves;
    var id, fqdn, now := row.captureId, row.capture.result.fqdn, c.clock(row.captureId);
    var offline := OfflineVerdict(c, id, row.capture);
    if offline.Some? {
      TrySaveVerdict(store, NewVerdict(id, fqdn, c.backend, c.model, offline, now, None), saves);
      stats := stats.(byLabel := stats.byLabel + multiset{offline.value.kind});
      return;
    }
    stats := stats.(modelCalls := stats.modelCalls + 1);
    Await(store, c.flushes(id));
    match c.answer(id) {
      case Failed(error) =>
        stats := stats.(failed := stats.failed + 1);
        TrySaveVerdict(store, NewVerdict(id, fqdn, c.backend, c.model, None, now, Some(error[..Min(|error|, 500)])),
                       saves);
      case Judged(verdict) =>
        stats := stats.(byLabel := stats.byLabel + multiset{verdict.kind});
        TrySaveVerdict(store, NewVerdict(id, fqdn, c.backend, c.model, Some(verdict), now, None), saves);
    }
  }

  method TrySaveVerdict(store: MatchStore, row: VerdictRow, saves: bool)
    requires row.alertedAt.None?
    modifies store
    ensures store.Snapshot() == if saves then AddVerdict(old(store.Snapshot()), row) else old(store.Snapshot())
  {
    if saves {
      var written := store.SaveVerdict(row);
    }
  }

  lemma OnePastFlush(db: Db, threshold: real, rows: seq<VerdictRow>, row: VerdictRow, flushed: seq<seq<Sighting>>,
                     now: seq<seq<Sighting>>)
    ensures AddVerdict(WriteBatches(AddVerdicts(WriteBatches(db, threshold, flushed), rows), threshold, now), row)
         == AddVerdicts(WriteBatches(db, threshold, flushed + now), rows + [row])
  {
    FlushCommutes(WriteBatches(db, threshold, flushed), threshold, rows, now);
    BatchesConcat(db, threshold, flushed, now);
    assert (rows + [row])[..|rows|] == rows;
  }

  lemma ClassifyStep(db: Db, threshold: real, c: Classifier, captures: map<nat, CaptureRow>, ids: seq<nat>, i: nat)
    requires i < |ids| && forall j :: 0 <= j < |ids| ==> ids[j] in captures
    ensures var row := captures[ids[i]];
            AddVerdict(WriteBatches(AfterClassifying(db, threshold, c, captures, ids[..i]), threshold,
                                    FlushedFor(c, ids[i], row)),
                       RowFor(c, ids[i], row))
            == AfterClassifying(db, threshold, c, captures, ids[..i + 1])
  {
    var row := captures[ids[i]];
    var rows, flushed := RowsFor(c, captures, ids[..i]), FlushedDuring(c, captures, ids[..i]);
    assert FlushedDuring(c, captures, ids[..i + 1]) == flushed + FlushedFor(c, ids[i], row) by {
      assert ids[..i + 1][..i] == ids[..i];
    }
    assert RowsFor(c, captures, ids[..i + 1]) == rows + [RowFor(c, ids[i], row)];
    OnePastFlush(db, threshold, rows, RowFor(c, ids[i], row), flushed, FlushedFor(c, ids[i], row));
  }

  /** The database after classifying `ids`, flushes included. */
  function AfterClassifying(db: Db, threshold: real, c: Classifier, captures: map<nat, CaptureRow>, ids: seq<nat>): Db
    requires forall i :: 0 <= i < |ids| ==> ids[i] in captures
  {
    AddVerdicts(WriteBatches(db, threshold, FlushedDuring(c, captures, ids)), RowsFor(c, captures, ids))
  }

  /** The database after a run that got through the first `done` captures, and broke off at the next, if any. */
  function AfterBreak(db: Db, threshold: real, c: Classifier, captures: map<nat, CaptureRow>, ids: seq<nat>,
                      done: nat): Db
    requires done <= |ids| && forall i :: 0 <= i < |ids| ==> ids[i] in captures
  {
    var mid := AfterClassifying(db, threshold, c, captures, ids[..done]);
    if done == |ids| then mid else WriteBatches(mid, threshold, FlushedFor(c, ids[done], captures[ids[done]]))
  }

  predicate SavedUpTo(ids: seq<nat>, saves: nat -> bool, done: nat) {
    done <= |ids| && (forall i :: 0 <= i < done ==> saves(ids[i])) && (done < |ids| ==> !saves(ids[done]))
  }

  /**
   * `run_classifications`; `saves` says of which captures a verdict can be had, their screenshots looked up included,
   * and saved.
   */
  method RunClassifications(store: MatchStore, c: Classifier, limit: nat, saves: nat -> bool)
    returns (stats: ClassifyRunStats, raised: bool, ghost ids: seq<nat>, ghost done: nat)
    modifies store
    ensures old(IsPage(ids, PendingCaptureIds(store.Snapshot(), c.backend, c.model), CaptureOrder(store.captures),
                       limit))
    ensures forall i :: 0 <= i < |ids| ==> ids[i] in old(store.captures)
    ensures SavedUpTo(ids, saves, done) && (raised <==> done < |ids|)
    ensures store.Snapshot() == AfterBreak(old(store.Snapshot()), store.alertThreshold, c, old(store.captures), ids,
                                           done)
    ensures !raised ==> stats.attempted == |ids| && stats.attempted == stats.failed + |stats.byLabel|
  {
    stats, raised, done := ClassifyRunStats(0, 0, multiset{}, 0), false, 0;
    var captureIds, rows := store.PendingClassifications(limit, c.backend, c.model);
    ids := captureIds;
    ghost var captures := store.captures;
    for i := 0 to |rows|
      invariant done == i
      invariant store.Snapshot() == AfterClassifying(old(store.Snapshot()), store.alertThreshold, c, captures, ids[..i])
      invariant stats.attempted == i && stats.attempted == stats.failed + |stats.byLabel|
      invariant forall j :: 0 <= j < i ==> saves(ids[j])
    {
      ClassifyStep(old(store.Snapshot()), store.alertThreshold, c, captures, ids, i);
      stats, raised := ClassifyOne(store, c, rows[i], saves(captureIds[i]), stats);
      if raised {
        return;
      }
      done := i + 1;
    }
  }

  // ------------------------------------------------- one verdict per capture, backend and model

  predicate SameQuestion(v: VerdictRow, w: VerdictRow) {
    v.captureId == w.captureId && v.backend == w.backend && v.model == w.model
  }

  /** At most one verdict per (capture, backend, model), a missing model included. */
  ghost predicate UniqueVerdicts(db: Db) {
    forall v, w :: v in db.verdicts && w in db.verdicts && SameQuestion(db.verdicts[v], db.verdicts[w]) ==> v == w
  }

  ghost predicate VerdictsNumbered(db: Db) {
    forall v :: v in db.verdicts ==> v < db.nextVerdict
  }

  /** Saving a verdict for a pending capture adds it, is never skipped, and settles that capture alone. */
  lemma AddPending(db: Db, row: VerdictRow)
    requires row.captureId in PendingCaptureIds(db, row.backend, row.model) && UniqueVerdicts(db)
    requires VerdictsNumbered(db)
    ensures var after := AddVerdict(db, row);
            && after.verdicts == db.verdicts[db.nextVerdict := row]
            && UniqueVerdicts(after) && VerdictsNumbered(after)
            && PendingCaptureIds(after, row.backend, row.model)
               == PendingCaptureIds(db, row.backend, row.model) - {row.captureId}
  {
    assert forall v :: v in db.verdicts ==> !Judges(db.verdicts[v], row.captureId, row.backend, row.model);
    var after := AddVerdict(db, row);
    assert after.verdicts[db.nextVerdict] == row && Judges(row, row.captureId, row.backend, row.model);
    forall id | id in db.captures
      ensures id in PendingCaptureIds(after, row.backend, row.model) <==>
                id in PendingCaptureIds(db, row.backend, row.model) && id != row.captureId
    {
      assert forall v :: v in db.verdicts ==> after.verdicts[v] == db.verdicts[v];
    }
  }

  /** Rows that answer one question for distinct pending captures. */
  ghost predicate Answers(db: Db, backend: string, model: Option<string>, ids: seq<nat>, rows: seq<VerdictRow>) {
    && |rows| == |ids| && Distinct(ids)
    && (forall i :: 0 <= i < |ids| ==> ids[i] in PendingCaptureIds(db, backend, model))
    && (forall i :: 0 <= i < |rows| ==>
          rows[i].captureId == ids[i] && rows[i].backend == backend && rows[i].model == model)
  }

  /** A run keeps verdicts unique and takes exactly its captures off the pending list: none is skipped as a conflict. */
  lemma {:induction false} AnswersSettle(db: Db, backend: string, model: Option<string>, ids: seq<nat>,
                                         rows: seq<VerdictRow>)
    requires Answers(db, backend, model, ids, rows) && UniqueVerdicts(db) && VerdictsNumbered(db)
    ensures var after := AddVerdicts(db, rows);
            && UniqueVerdicts(after) && VerdictsNumbered(after)
            && PendingCaptureIds(after, backend, model) == PendingCaptureIds(db, backend, model) - Elements(ids)
            && |after.verdicts| == |db.verdicts| + |ids|
            && after.captures == db.captures
  {
    if rows != [] {
      var n := |rows| - 1;
      LastApart(ids);
      AnswersSettle(db, backend, model, ids[..n], rows[..n]);
      AddPending(AddVerdicts(db, rows[..n]), rows[n]);
    }
  }

  lemma LastApart(ids: seq<nat>)
    requires ids != [] && Distinct(ids)
    ensures var n := |ids| - 1; Elements(ids) == Elements(ids[..n]) + {ids[n]} && ids[n] !in Elements(ids[..n])
  {
    assert ids == ids[..|ids| - 1] + [ids[|ids| - 1]];
  }

  /** And each answer is stored as it is. */
  lemma {:induction false} AnswerIsStored(db: Db, backend: string, model: Option<string>, ids: seq<nat>,
                                          rows: seq<VerdictRow>, i: nat)
    returns (v: nat)
    requires Answers(db, backend, model, ids, rows) && UniqueVerdicts(db) && VerdictsNumbered(db) && i < |rows|
    ensures v in AddVerdicts(db, rows).verdicts && AddVerdicts(db, rows).verdicts[v] == rows[i]
  {
    var n := |rows| - 1;
    AnswersSettle(db, backend, model, ids[..n], rows[..n]);
    assert ids == ids[..n] + [ids[n]] && ids[n] !in Elements(ids[..n]);
    var before := AddVerdicts(db, rows[..n]);
    AddPending(before, rows[n]);
    if i == n {
      v := before.nextVerdict;
    } else {
      v := AnswerIsStored(db, backend, model, ids[..n], rows[..n], i);
    }
  }

  lemma {:induction false} FlushKeepsVerdicts(db: Db, threshold: real, batches: seq<seq<Sighting>>)
    ensures var after := WriteBatches(db, threshold, batches);
            && after.captures == db.captures && after.verdicts == db.verdicts
            && after.nextCapture == db.nextCapture && after.nextVerdict == db.nextVerdict
  {
    if batches != [] { FlushKeepsVerdicts(db, threshold, batches[..|batches| - 1]); }
  }

  lemma RowsAnswer(c: Classifier, captures: map<nat, CaptureRow>, ids: seq<nat>)
    requires forall i :: 0 <= i < |ids| ==> ids[i] in captures
    ensures var rows := RowsFor(c, captures, ids);
            forall i :: 0 <= i < |rows| ==>
              rows[i].captureId == ids[i] && rows[i].backend == c.backend && rows[i].model == c.model
  {
  }

  lemma AnswersSettleAfterFlush(db: Db, threshold: real, batches: seq<seq<Sighting>>, backend: string,
                                model: Option<string>, ids: seq<nat>, rows: seq<VerdictRow>)
    requires Answers(db, backend, model, ids, rows) && UniqueVerdicts(db) && VerdictsNumbered(db)
    ensures var after := AddVerdicts(WriteBatches(db, threshold, batches), rows);
            && UniqueVerdicts(after) && VerdictsNumbered(after)
            && PendingCaptureIds(after, backend, model) == PendingCaptureIds(db, backend, model) - Elements(ids)
            && |after.verdicts| == |db.verdicts| + |ids|
  {
    var flushed := WriteBatches(db, threshold, batches);
    FlushKeepsVerdicts(db, threshold, batches);
    assert PendingCaptureIds(flushed, backend, model) == PendingCaptureIds(db, backend, model);
    AnswersSettle(flushed, backend, model, ids, rows);
  }

  /** What one run does to the verdicts, whatever is flushed meanwhile. */
  lemma RunSettlesPage(db: Db, threshold: real, c: Classifier, ids: seq<nat>, limit: nat)
    requires UniqueVerdicts(db) && VerdictsNumbered(db)
    requires IsPage(ids, PendingCaptureIds(db, c.backend, c.model), CaptureOrder(db.captures), limit)
    requires forall i :: 0 <= i < |ids| ==> ids[i] in db.captures
    ensures var after := AfterClassifying(db, threshold, c, db.captures, ids);
            && UniqueVerdicts(after) && VerdictsNumbered(after)
            && PendingCaptureIds(after, c.backend, c.model) == PendingCaptureIds(db, c.backend, c.model) - Elements(ids)
            && Batch(PendingCaptureIds(db, c.backend, c.model), PendingCaptureIds(after, c.backend, c.model), limit)
            && |after.verdicts| == |db.verdicts| + |ids|
  {
    PageTakes(ids, PendingCaptureIds(db, c.backend, c.model), CaptureOrder(db.captures), limit);
    assert forall i :: 0 <= i < |ids| ==> ids[i] in Elements(ids);
    RowsAnswer(c, db.captures, ids);
    AnswersSettleAfterFlush(db, threshold, FlushedDuring(c, db.captures, ids), c.backend, c.model, ids,
                            RowsFor(c, db.captures, ids));
  }

  /** Runs of one backend and model, whatever they answer and whatever is flushed, and nothing else in between. */
  ghost predicate ClassifyRuns(dbs: seq<Db>, threshold: real, c: seq<Classifier>, backend: string,
                               model: Option<string>, limit: nat) {
    && dbs != [] && |c| == |dbs| && UniqueVerdicts(dbs[0]) && VerdictsNumbered(dbs[0])
    && (forall j :: 0 <= j < |c| ==> c[j].backend == backend && c[j].model == model)
    && forall j :: 0 < j < |dbs| ==> ClassifiesPage(dbs[j - 1], dbs[j], threshold, c[j], limit)
  }

  ghost predicate ClassifiesPage(db: Db, after: Db, threshold: real, c: Classifier, limit: nat) {
    exists ids ::
      && IsPage(ids, PendingCaptureIds(db, c.backend, c.model), CaptureOrder(db.captures), limit)
      && (forall i :: 0 <= i < |ids| ==> ids[i] in db.captures)
      && after == AfterClassifying(db, threshold, c, db.captures, ids)
  }

  lemma PageSettles(db: Db, after: Db, threshold: real, c: Classifier, limit: nat)
    requires ClassifiesPage(db, after, threshold, c, limit) && UniqueVerdicts(db) && VerdictsNumbered(db)
    ensures UniqueVerdicts(after) && VerdictsNumbered(after)
    ensures Batch(PendingCaptureIds(db, c.backend, c.model), PendingCaptureIds(after, c.backend, c.model), limit)
  {
    var ids :| && IsPage(ids, PendingCaptureIds(db, c.backend, c.model), CaptureOrder(db.captures), limit)
               && (forall i :: 0 <= i < |ids| ==> ids[i] in db.captures)
               && after == AfterClassifying(db, threshold, c, db.captures, ids);
    RunSettlesPage(db, threshold, c, ids, limit);
  }

  lemma RunAt(dbs: seq<Db>, threshold: real, c: seq<Classifier>, backend: string, model: Option<string>, limit: nat,
              j: nat)
    requires ClassifyRuns(dbs, threshold, c, backend, model, limit) && 0 < j < |dbs|
    requires UniqueVerdicts(dbs[j - 1]) && VerdictsNumbered(dbs[j - 1])
    ensures UniqueVerdicts(dbs[j]) && VerdictsNumbered(dbs[j])
    ensures Batch(PendingCaptureIds(dbs[j - 1], backend, model), PendingCaptureIds(dbs[j], backend, model), limit)
  {
    PageSettles(dbs[j - 1], dbs[j], threshold, c[j], limit);
  }

  lemma {:induction false} RunsStayUnique(dbs: seq<Db>, threshold: real, c: seq<Classifier>, backend: string,
                                          model: Option<string>, limit: nat, j: nat)
    requires ClassifyRuns(dbs, threshold, c, backend, model, limit) && j < |dbs|
    ensures UniqueVerdicts(dbs[j]) && VerdictsNumbered(dbs[j])
  {
    if j > 0 {
      RunsStayUnique(dbs, threshold, c, backend, model, limit, j - 1);
      RunAt(dbs, threshold, c, backend, model, limit, j);
    }
  }

  function UnjudgedAt(dbs: seq<Db>, backend: string, model: Option<string>): (queues: seq<set<nat>>)
    ensures |queues| == |dbs| && forall j :: 0 <= j < |dbs| ==> queues[j] == PendingCaptureIds(dbs[j], backend, model)
  {
    seq(|dbs|, j requires 0 <= j < |dbs| => PendingCaptureIds(dbs[j], backend, model))
  }

  /** The pending captures are gone after exactly ceil(n / limit) runs, failures and all. */
  lemma ClassificationsDrain(dbs: seq<Db>, threshold: real, c: seq<Classifier>, backend: string, model: Option<string>,
                             limit: nat, i: nat)
    requires ClassifyRuns(dbs, threshold, c, backend, model, limit) && i < |dbs| && limit > 0
    ensures PendingCaptureIds(dbs[i], backend, model) == {} <==>
              i >= CeilDiv(|PendingCaptureIds(dbs[0], backend, model)|, limit)
  {
    var queues := UnjudgedAt(dbs, backend, model);
    forall j | 0 < j < |queues|
      ensures Batch(queues[j - 1], queues[j], limit)
    {
      RunsStayUnique(dbs, threshold, c, backend, model, limit, j - 1);
      RunAt(dbs, threshold, c, backend, model, limit, j);
    }
    Drains(queues, limit, i);
  }

  /** Without a model the UNIQUE constraint stops nothing: a second verdict for an already judged capture is stored. */
  lemma NullModelNotGuarded(db: Db, row: VerdictRow)
    requires row.model.None? && VerdictsNumbered(db)
    ensures AddVerdict(db, row).verdicts == db.verdicts[db.nextVerdict := row]
    ensures (exists v :: v in db.verdicts && SameQuestion(db.verdicts[v], row)) ==> !UniqueVerdicts(AddVerdict(db, row))
  {
    var after := AddVerdict(db, row);
    if exists v :: v in db.verdicts && SameQuestion(db.verdicts[v], row) {
      var v :| v in db.verdicts && SameQuestion(db.verdicts[v], row);
      assert after.verdicts[v] == db.verdicts[v] && after.verdicts[db.nextVerdict] == row;
    }
  }
}
