/** The triage state machine (watch.py): what every reachable state keeps, under any interleaving and any container. */
module Triage {
  import opened Wrappers
  import opened Text
  import opened Scoring
  import opened Captures
  import opened Hostnames
  import opened Handoff
  import opened Store
  import opened CaptureRunner
  import opened ClassifyRunner
  import opened AlertRunner
  import opened Rescore
  import Runs

  /** What does not change while the watch runs. */
  datatype Setup = Setup(capture: CaptureConfig, decode: string -> Option<Record>, policy: Policy, threshold: real)

  /** The one stage that may be waiting: for a container, or for a model of some backend. */
  datatype Stage = Idle | Visiting(job: Job) | Classifying(backend: string, model: Option<string>, todo: seq<nat>)

  /** A verdict some sink was told of, and whether the store then recorded that. */
  datatype Notice = Notice(verdict: nat, recorded: bool)

  /** The database, and the history: every job built, the job behind each capture, every notice sent, in order. */
  datatype World = World(db: Db, stage: Stage, jobs: set<Job>, origins: map<nat, Job>, told: seq<Notice>)

  /**
   * Everything runs on one event loop over synchronous store calls, in the one process that may write the database:
   * an event is what happens between two awaits. A flush, a rescore or a clear-out may come between any two events, a
   * classification may be of any backend and model, and a stage may be left at any point: finished, broken off by an
   * exception, or cut short by a restart.
   */
  datatype Event =
    | Flush(rows: seq<Sighting>)
    | RescoreAll(score: ScoreAll, newThreshold: real)
    | Clear(clearBackend: string, clearModel: Option<string>, clearLimit: nat, cleared: seq<nat>)
    | ClearFailed(failedBackend: string)
    | BeginAlerts(jobId: string, limit: nat, cutoff: int, hosts: seq<string>)
    | BeginFeed(jobId: string, targets: seq<string>)
    | EndVisit(visit: Visit, now: int, ok: nat -> bool)
    | BeginClassify(backend: string, model: Option<string>, limit: nat, ids: seq<nat>)
    | ClassifyNext(classifier: Classifier)
    | LeaveStage
    | Announce(page: AlertPage, done: nat, unrecorded: bool)

  /** A page of findings on its way to the sinks. */
  datatype AlertPage = AlertPage(sinks: seq<string>, accepts: Accepts, limit: nat, ids: seq<nat>, clock: nat -> int)

  function Start(): World {
    World(Db(map[], map[], map[], 0, map[], 0), Idle, {}, map[], [])
  }

  ghost predicate Enabled(s: Setup, w: World, e: Event) {
    match e
    case Flush(_) => true
    case RescoreAll(_, _) => true
    case Clear(backend, model, limit, cleared) => IsPage(cleared, Clearable(w.db, backend, model), Newer, limit)
    case ClearFailed(_) => true
    case BeginAlerts(_, limit, cutoff, hosts) =>
      w.stage.Idle? && hosts != [] && IsPage(hosts, PendingHosts(w.db, cutoff), HostOrder(w.db.matches), limit)
    case BeginFeed(_, targets) => w.stage.Idle? && targets != []
    case EndVisit(visit, _, _) =>
      && w.stage.Visiting? && Usable(w.stage.job)
      && !ImportRaises(HostFor(s.decode, s.capture, w.stage.job, visit), visit.file)
    case BeginClassify(backend, model, limit, ids) =>
      w.stage.Idle? && IsPage(ids, PendingCaptureIds(w.db, backend, model), CaptureOrder(w.db.captures), limit)
    case ClassifyNext(c) =>
      && w.stage.Classifying? && w.stage.todo != [] && w.stage.todo[0] in w.db.captures
      && c.backend == w.stage.backend && c.model == w.stage.model && c.capturesDir == s.capture.outputDir
    case LeaveStage => true
    case Announce(page, done, unrecorded) => w.stage.Idle? && CanAnnounce(w.db, s.policy, page, done, unrecorded)
  }

  /** The page may be broken off after `done` findings, and the next one told of but not recorded. */
  ghost predicate CanAnnounce(db: Db, p: Policy, page: AlertPage, done: nat, unrecorded: bool) {
    && IsPage(page.ids, PendingAlertIds(db, p), AlertOrder(db.verdicts), page.limit) && done <= |page.ids|
    && (unrecorded ==> done < |page.ids| && Delivered(page.sinks, page.accepts, page.ids[done]))
  }

  function Recorded(ids: seq<nat>): (notices: seq<Notice>)
    ensures |notices| == |ids| && forall i :: 0 <= i < |ids| ==> notices[i] == Notice(ids[i], true)
  {
    seq(|ids|, i requires 0 <= i < |ids| => Notice(ids[i], true))
  }

  /** What the sinks hear of the first `done` findings of a page, and of one more the store failed to record. */
  function NoticesOf(page: AlertPage, done: nat, unrecorded: bool): seq<Notice>
    requires done <= |page.ids| && (unrecorded ==> done < |page.ids|)
  {
    var told := Recorded(Announced(page.sinks, page.accepts, page.ids, done));
    if unrecorded then told + [Notice(page.ids[done], false)] else told
  }

  /** The error row the host may have to write needs a URL. */
  predicate Usable(job: Job) {
    AllowedSchemes(job.schemes) && job.schemes != []
  }

  function JobRows(s: Setup, job: Job, visit: Visit, now: int): seq<CaptureRow>
    requires Usable(job)
  {
    RowsToSave(job, Imported(HostFor(s.decode, s.capture, job, visit), visit.file), visit.ending, now)
  }

  /** Captures filed under the job they were made for. */
  function Traced(origins: map<nat, Job>, before: map<nat, CaptureRow>, after: map<nat, CaptureRow>,
                  job: Job): map<nat, Job> {
    origins + map id | id in after && id !in before :: job
  }

  ghost function Apply(s: Setup, w: World, e: Event): World
    requires Enabled(s, w, e)
  {
    match e
    case Flush(rows) => w.(db := WriteRows(w.db, s.threshold, rows))
    case RescoreAll(score, newThreshold) => w.(db := RescoreDb(w.db, score, newThreshold))
    case Clear(_, _, _, cleared) => w.(db := w.db.(verdicts := w.db.verdicts - Elements(cleared)))
    case ClearFailed(backend) => w.(db := w.db.(verdicts := w.db.verdicts - FailedVerdicts(w.db, backend)))
    case BeginAlerts(jobId, _, _, hosts) => Begin(s, w, jobId, hosts)
    case BeginFeed(jobId, targets) => Begin(s, w, jobId, targets)
    case EndVisit(visit, now, ok) =>
      var after := SaveRows(w.db, JobRows(s, w.stage.job, visit, now), ok, 0);
      w.(db := after, stage := Idle, origins := Traced(w.origins, w.db.captures, after.captures, w.stage.job))
    case BeginClassify(backend, model, _, ids) => w.(stage := Classifying(backend, model, ids))
    case ClassifyNext(c) =>
      var id := w.stage.todo[0];
      w.(db := AddVerdict(w.db, RowFor(c, id, w.db.captures[id])), stage := w.stage.(todo := w.stage.todo[1..]))
    case LeaveStage => w.(stage := Idle)
    case Announce(page, done, unrecorded) =>
      w.(db := MarkAll(w.db, Announced(page.sinks, page.accepts, page.ids, done), page.clock),
         told := w.told + NoticesOf(page, done, unrecorded))
  }

  function Begin(s: Setup, w: World, jobId: string, hosts: seq<string>): World {
    var job := JobFor(s.capture, jobId, hosts);
    w.(stage := Visiting(job), jobs := w.jobs + {job})
  }

  // ------------------------------------------------- the invariant

  /** The host built every job from its own configuration. */
  ghost predicate JobsFromConfig(s: Setup, w: World) {
    && (forall job :: job in w.jobs ==>
          job.schemes == s.capture.schemes && job.vantage == s.capture.vantage && Distinct(job.targets))
    && (w.stage.Visiting? ==> w.stage.job in w.jobs)
  }

  /** The capture answers a target of its job, over a URL the job allows, from the job's vantage point. */
  ghost predicate Made(job: Job, row: CaptureRow) {
    && row.result.fqdn in job.targets && row.vantage == job.vantage
    && (exists scheme :: scheme in job.schemes && row.result.url == UrlFor(scheme, row.result.fqdn))
    && (row.result.status.Ok? ==> HasScreenshot(row))
  }

  /** A screenshot below the capture directory, by a path with nothing clever in it. */
  ghost predicate HasScreenshot(row: CaptureRow) {
    row.result.screenshot.Some? && PlainPath(row.result.screenshot.value)
  }

  ghost predicate CapturesTraced(w: World) {
    && Numbered(w.db) && w.origins.Keys == w.db.captures.Keys
    && forall id :: id in w.db.captures ==> w.origins[id] in w.jobs && Made(w.origins[id], w.db.captures[id])
  }

  /** The verdict is about its capture, and no finding stands on a failed visit. */
  ghost predicate Grounded(db: Db, v: VerdictRow) {
    && v.captureId in db.captures && v.fqdn == db.captures[v.captureId].result.fqdn
    && (v.kind !in {Unreachable, Unknown} ==> db.captures[v.captureId].result.status.Ok?)
  }

  ghost predicate VerdictsGrounded(w: World) {
    && VerdictsNumbered(w.db) && UniqueVerdicts(w.db)
    && forall v :: v in w.db.verdicts ==> Grounded(w.db, w.db.verdicts[v])
  }

  ghost predicate TodoPending(w: World) {
    w.stage.Classifying? ==>
      && Distinct(w.stage.todo)
      && forall i :: 0 <= i < |w.stage.todo| ==>
           w.stage.todo[i] in PendingCaptureIds(w.db, w.stage.backend, w.stage.model)
  }

  /** Nobody hears of a verdict again once that is recorded, and the verdicts say what is recorded. */
  ghost predicate ToldOnce(w: World) {
    && (forall i, j :: 0 <= i < j < |w.told| && w.told[i].verdict == w.told[j].verdict ==> !w.told[i].recorded)
    && (forall i :: 0 <= i < |w.told| ==> w.told[i].verdict < w.db.nextVerdict)
    && (forall v :: v in w.db.verdicts ==> (w.db.verdicts[v].alertedAt.Some? <==> Notice(v, true) in w.told))
  }

  /** Verdicts the sinks were told of meet the policy and are about hosts the scoring found. */
  ghost predicate AlertsJustified(s: Setup, w: World) {
    forall i :: 0 <= i < |w.told| && w.told[i].verdict in w.db.verdicts ==>
      Justified(s, w.db, w.db.verdicts[w.told[i].verdict])
  }

  ghost predicate Justified(s: Setup, db: Db, v: VerdictRow) {
    Meets(s.policy, v) && KnownByScoring(db.matches, v.fqdn)
  }

  ghost predicate Inv(s: Setup, w: World) {
    && JobsFromConfig(s, w) && CapturesTraced(w) && VerdictsGrounded(w) && TodoPending(w)
    && ToldOnce(w) && AlertsJustified(s, w)
  }

  // ------------------------------------------------- steps that touch matches only

  /** Hosts known to the scoring stay known, and no capture or verdict changes. */
  ghost predicate OnlyMatches(before: Db, after: Db) {
    && after.captures == before.captures && after.nextCapture == before.nextCapture
    && after.verdicts == before.verdicts && after.nextVerdict == before.nextVerdict
    && before.matches.Keys <= after.matches.Keys
  }

  lemma MatchesStepKeepsInv(s: Setup, w: World, after: Db)
    requires Inv(s, w) && OnlyMatches(w.db, after)
    ensures Inv(s, w.(db := after))
  {
    forall f | KnownByScoring(w.db.matches, f)
      ensures KnownByScoring(after.matches, f)
    {
      var k :| k in w.db.matches && k.fqdn == f;
      assert k in after.matches;
    }
    assert forall b, m :: PendingCaptureIds(after, b, m) == PendingCaptureIds(w.db, b, m);
  }

  lemma FlushOnlyMatches(db: Db, threshold: real, rows: seq<Sighting>)
    ensures OnlyMatches(db, WriteRows(db, threshold, rows))
  {
    InsertKeeps(db.matches, threshold, rows);
  }

  // ------------------------------------------------- clearing verdicts

  lemma ClearKeepsInv(s: Setup, w: World, gone: set<nat>)
    requires Inv(s, w)
    ensures Inv(s, w.(db := w.db.(verdicts := w.db.verdicts - gone)))
  {
    ClearKeepsTodo(w, gone);
    ClearKeepsGrounded(w, gone);
    ClearKeepsTold(s, w, gone);
  }

  lemma ClearKeepsTold(s: Setup, w: World, gone: set<nat>)
    requires ToldOnce(w) && AlertsJustified(s, w)
    ensures var next := w.(db := w.db.(verdicts := w.db.verdicts - gone)); ToldOnce(next) && AlertsJustified(s, next)
  {
  }

  lemma ClearKeepsTodo(w: World, gone: set<nat>)
    requires TodoPending(w)
    ensures TodoPending(w.(db := w.db.(verdicts := w.db.verdicts - gone)))
  {
    var after := w.db.(verdicts := w.db.verdicts - gone);
    assert forall b, m :: PendingCaptureIds(w.db, b, m) <= PendingCaptureIds(after, b, m);
  }

  lemma ClearKeepsGrounded(w: World, gone: set<nat>)
    requires VerdictsGrounded(w)
    ensures VerdictsGrounded(w.(db := w.db.(verdicts := w.db.verdicts - gone)))
  {
  }

  // ------------------------------------------------- capturing

  lemma BeginKeepsInv(s: Setup, w: World, jobId: string, hosts: seq<string>)
    requires Inv(s, w)
    ensures Inv(s, Begin(s, w, jobId, hosts))
  {
  }

  /** Whatever the container wrote, a row the host saves is about its own job. */
  lemma RowsAreMade(s: Setup, job: Job, visit: Visit, now: int)
    requires Usable(job) && job.schemes == s.capture.schemes && Distinct(job.targets)
    requires PlainPath(s.capture.outputDir)
    ensures forall r :: r in JobRows(s, job, visit, now) ==> Made(job, r)
  {
    var h := HostFor(s.decode, s.capture, job, visit);
    var report := Imported(h, visit.file);
    ImportedOneEach(h, visit.file);
    OneRowPerTarget(job, report, visit.ending, now);
    forall r | r in JobRows(s, job, visit, now)
      ensures Made(job, r)
    {
      if i :| 0 <= i < |report.results| && r == CaptureRow(report.results[i], job.vantage) {
        ResultIsMade(h, visit.file, i);
      } else {
        assert r.result.url == UrlFor(job.schemes[0], r.result.fqdn);
      }
    }
  }

  lemma ResultIsMade(h: Host, file: ResultsFile, i: nat)
    requires AllowedSchemes(h.job.schemes) && PlainPath(h.root) && i < |Imported(h, file).results|
    ensures Made(h.job, CaptureRow(Imported(h, file).results[i], h.job.vantage))
  {
    var lines := SplitLines(file.text);
    var r := Imported(h, file).results[i];
    AcceptedIsSound(h, lines, |lines|, i);
    var urls := CandidateUrls(r.fqdn, h.job.schemes).value;
    var k :| 0 <= k < |urls| && urls[k] == r.url;
    assert h.job.schemes[k] in h.job.schemes;
  }

  lemma {:induction false} SavesAdd(db: Db, rows: seq<CaptureRow>, ok: nat -> bool, start: nat)
    requires Numbered(db)
    ensures var after := SaveRows(db, rows, ok, start);
            && Numbered(after) && after == db.(captures := after.captures, nextCapture := after.nextCapture)
            && (forall id :: id in db.captures ==> id in after.captures && after.captures[id] == db.captures[id])
            && (forall id :: id in after.captures && id !in db.captures ==> after.captures[id] in rows)
  {
    if rows != [] {
      SavesAdd(db, rows[..|rows| - 1], ok, start);
      assert rows == rows[..|rows| - 1] + [rows[|rows| - 1]];
    }
  }

  lemma EndVisitKeepsInv(s: Setup, w: World, visit: Visit, now: int, ok: nat -> bool)
    requires PlainPath(s.capture.outputDir) && Inv(s, w) && Enabled(s, w, EndVisit(visit, now, ok))
    ensures Inv(s, Apply(s, w, EndVisit(visit, now, ok)))
  {
    RowsAreMade(s, w.stage.job, visit, now);
    SavesKeepInv(s, w, w.stage.job, JobRows(s, w.stage.job, visit, now), ok);
  }

  lemma SavesKeepInv(s: Setup, w: World, job: Job, rows: seq<CaptureRow>, ok: nat -> bool)
    requires Inv(s, w) && job in w.jobs && !w.stage.Classifying? && forall r :: r in rows ==> Made(job, r)
    ensures var after := SaveRows(w.db, rows, ok, 0);
            Inv(s, w.(db := after, stage := Idle, origins := Traced(w.origins, w.db.captures, after.captures, job)))
  {
    SavesAdd(w.db, rows, ok, 0);
    SavedKeepInv(s, w, job, SaveRows(w.db, rows, ok, 0), rows);
  }

  lemma SavedKeepInv(s: Setup, w: World, job: Job, after: Db, rows: seq<CaptureRow>)
    requires Inv(s, w) && job in w.jobs && !w.stage.Classifying? && Numbered(after)
    requires forall r :: r in rows ==> Made(job, r)
    requires after == w.db.(captures := after.captures, nextCapture := after.nextCapture)
    requires forall id :: id in w.db.captures ==> id in after.captures && after.captures[id] == w.db.captures[id]
    requires forall id :: id in after.captures && id !in w.db.captures ==> after.captures[id] in rows
    ensures Inv(s, w.(db := after, stage := Idle, origins := Traced(w.origins, w.db.captures, after.captures, job)))
  {
    StillTraced(w, job, after, rows);
    StillGrounded(w, after, Traced(w.origins, w.db.captures, after.captures, job));
    StillTold(s, w, after, Traced(w.origins, w.db.captures, after.captures, job));
  }

  lemma StillTold(s: Setup, w: World, after: Db, origins: map<nat, Job>)
    requires ToldOnce(w) && AlertsJustified(s, w)
    requires after == w.db.(captures := after.captures, nextCapture := after.nextCapture)
    ensures var next := w.(db := after, stage := Idle, origins := origins); ToldOnce(next) && AlertsJustified(s, next)
  {
    assert after.verdicts == w.db.verdicts && after.matches == w.db.matches;
  }

  lemma StillGrounded(w: World, after: Db, origins: map<nat, Job>)
    requires VerdictsGrounded(w) && after == w.db.(captures := after.captures, nextCapture := after.nextCapture)
    requires forall id :: id in w.db.captures ==> id in after.captures && after.captures[id] == w.db.captures[id]
    ensures VerdictsGrounded(w.(db := after, stage := Idle, origins := origins))
  {
    assert after.verdicts == w.db.verdicts;
    forall v | v in after.verdicts
      ensures Grounded(after, after.verdicts[v])
    {
      assert Grounded(w.db, w.db.verdicts[v]);
    }
  }

  lemma StillTraced(w: World, job: Job, after: Db, rows: seq<CaptureRow>)
    requires CapturesTraced(w) && job in w.jobs && Numbered(after)
    requires forall r :: r in rows ==> Made(job, r)
    requires forall id :: id in w.db.captures ==> id in after.captures && after.captures[id] == w.db.captures[id]
    requires forall id :: id in after.captures && id !in w.db.captures ==> after.captures[id] in rows
    ensures CapturesTraced(w.(db := after, stage := Idle,
                              origins := Traced(w.origins, w.db.captures, after.captures, job)))
  {
    var origins := Traced(w.origins, w.db.captures, after.captures, job);
    assert origins.Keys == after.captures.Keys;
    forall id | id in after.captures
      ensures origins[id] in w.jobs && Made(origins[id], after.captures[id])
    {
      if id in w.db.captures {
        assert origins[id] == w.origins[id];
      } else {
        assert origins[id] == job;
      }
    }
  }

  // ------------------------------------------------- classifying

  lemma BeginClassifyKeepsInv(s: Setup, w: World, backend: string, model: Option<string>, limit: nat,
                              ids: seq<nat>)
    requires Inv(s, w) && IsPage(ids, PendingCaptureIds(w.db, backend, model), CaptureOrder(w.db.captures), limit)
    ensures Inv(s, w.(stage := Classifying(backend, model, ids)))
  {
  }

  /** A finding needs a visit that worked: the offline verdicts never call a site anything else. */
  lemma RowIsGrounded(db: Db, c: Classifier, id: nat)
    requires id in db.captures
    ensures Grounded(db, RowFor(c, id, db.captures[id])) && RowFor(c, id, db.captures[id]).alertedAt.None?
    ensures var v := RowFor(c, id, db.captures[id]); v.captureId == id && v.backend == c.backend && v.model == c.model
  {
  }

  lemma ClassifyNextKeepsInv(s: Setup, w: World, c: Classifier)
    requires Inv(s, w) && Enabled(s, w, ClassifyNext(c))
    ensures Inv(s, Apply(s, w, ClassifyNext(c)))
  {
    RowIsGrounded(w.db, c, w.stage.todo[0]);
    AddedKeepsInv(s, w, RowFor(c, w.stage.todo[0], w.db.captures[w.stage.todo[0]]));
  }

  lemma AddedKeepsInv(s: Setup, w: World, row: VerdictRow)
    requires Inv(s, w) && w.stage.Classifying? && w.stage.todo != [] && row.captureId == w.stage.todo[0]
    requires row.backend == w.stage.backend && row.model == w.stage.model && Grounded(w.db, row) && row.alertedAt.None?
    ensures Inv(s, w.(db := AddVerdict(w.db, row), stage := w.stage.(todo := w.stage.todo[1..])))
  {
    AddPending(w.db, row);
    AddedKeepsTodo(w, row);
    AddedKeepsTold(s, w, row);
  }

  lemma AddedKeepsTodo(w: World, row: VerdictRow)
    requires TodoPending(w) && UniqueVerdicts(w.db) && VerdictsNumbered(w.db)
    requires w.stage.Classifying? && w.stage.todo != [] && row.captureId == w.stage.todo[0]
    requires row.backend == w.stage.backend && row.model == w.stage.model
    ensures TodoPending(w.(db := AddVerdict(w.db, row), stage := w.stage.(todo := w.stage.todo[1..])))
  {
    AddPending(w.db, row);
    var rest := w.stage.todo[1..];
    assert forall i :: 0 <= i < |rest| ==> rest[i] == w.stage.todo[i + 1] && rest[i] != row.captureId;
  }

  lemma AddedKeepsTold(s: Setup, w: World, row: VerdictRow)
    requires ToldOnce(w) && AlertsJustified(s, w) && row.alertedAt.None? && w.stage.Classifying? && w.stage.todo != []
    requires row.captureId in PendingCaptureIds(w.db, row.backend, row.model) && UniqueVerdicts(w.db)
    requires VerdictsNumbered(w.db)
    ensures var next := w.(db := AddVerdict(w.db, row), stage := w.stage.(todo := w.stage.todo[1..]));
            ToldOnce(next) && AlertsJustified(s, next)
  {
    AddPending(w.db, row);
    assert forall i :: 0 <= i < |w.told| ==> w.told[i].verdict != w.db.nextVerdict;
  }

  // ------------------------------------------------- announcing

  /** What is true of a page while the sinks are told of it. */
  ghost predicate Telling(db: Db, p: Policy, told: seq<nat>, extra: seq<nat>) {
    && Distinct(told) && (forall v :: v in told ==> v in PendingAlertIds(db, p))
    && |extra| <= 1 && (forall v :: v in extra ==> v in PendingAlertIds(db, p) && v !in told)
  }

  function Unrecorded(extra: seq<nat>): (notices: seq<Notice>)
    ensures |notices| == |extra| && forall i :: 0 <= i < |extra| ==> notices[i] == Notice(extra[i], false)
  {
    seq(|extra|, i requires 0 <= i < |extra| => Notice(extra[i], false))
  }

  function Told(w: World, told: seq<nat>, extra: seq<nat>, clock: nat -> int): World {
    w.(db := MarkAll(w.db, told, clock), told := w.told + (Recorded(told) + Unrecorded(extra)))
  }

  lemma AnnounceKeepsInv(s: Setup, w: World, told: seq<nat>, extra: seq<nat>, clock: nat -> int)
    requires Inv(s, w) && Telling(w.db, s.policy, told, extra) && !w.stage.Classifying?
    ensures Inv(s, Told(w, told, extra, clock))
  {
    MarkedRows(w.db, told, clock);
    MarksKeepVerdicts(w, told, extra, clock);
    MarksToldOnce(s, w, told, extra, clock);
    MarksJustified(s, w, told, extra, clock);
  }

  lemma MarksToldOnce(s: Setup, w: World, told: seq<nat>, extra: seq<nat>, clock: nat -> int)
    requires ToldOnce(w) && VerdictsNumbered(w.db) && Telling(w.db, s.policy, told, extra)
    ensures ToldOnce(Told(w, told, extra, clock))
  {
    MarkedRows(w.db, told, clock);
    NoticesKnown(told, extra);
    NotToldAgain(w, s.policy, told, extra);
    MarksRecorded(w, told, extra, clock);
  }

  lemma NotToldAgain(w: World, p: Policy, told: seq<nat>, extra: seq<nat>)
    requires ToldOnce(w) && Telling(w.db, p, told, extra)
    ensures var after := w.told + (Recorded(told) + Unrecorded(extra));
            forall i, j :: 0 <= i < j < |after| && after[i].verdict == after[j].verdict ==> !after[i].recorded
  {
    var more := Recorded(told) + Unrecorded(extra);
    var after := w.told + more;
    NoticesKnown(told, extra);
    forall i, j | 0 <= i < j < |after| && after[i].verdict == after[j].verdict
      ensures !after[i].recorded
    {
      if |w.told| <= i {
        NoticesApart(told, extra, i - |w.told|, j - |w.told|);
      } else if |w.told| <= j {
        assert after[j] in more;
        assert after[i] == w.told[i] && w.told[i] in w.told;
      }
    }
  }

  lemma MarksRecorded(w: World, told: seq<nat>, extra: seq<nat>, clock: nat -> int)
    requires ToldOnce(w)
    ensures var after := Told(w, told, extra, clock);
            forall v :: v in after.db.verdicts ==>
              (after.db.verdicts[v].alertedAt.Some? <==> Notice(v, true) in after.told)
  {
    MarkedRows(w.db, told, clock);
    NoticesKnown(told, extra);
    var more := Recorded(told) + Unrecorded(extra);
    assert forall v :: Notice(v, true) in w.told + more <==> Notice(v, true) in w.told || Notice(v, true) in more;
  }

  lemma NoticesKnown(told: seq<nat>, extra: seq<nat>)
    ensures forall n :: n in Recorded(told) + Unrecorded(extra) ==> n.verdict in told || n.verdict in extra
    ensures forall v :: Notice(v, true) in Recorded(told) + Unrecorded(extra) <==> v in told
  {
    forall v | v in told
      ensures Notice(v, true) in Recorded(told)
    {
      var i :| 0 <= i < |told| && told[i] == v;
      assert Recorded(told)[i] == Notice(v, true);
    }
  }

  lemma NoticesApart(told: seq<nat>, extra: seq<nat>, i: nat, j: nat)
    requires Distinct(told) && |extra| <= 1 && (forall v :: v in extra ==> v !in told)
    requires i < j < |told| + |extra|
    ensures var more := Recorded(told) + Unrecorded(extra); more[i].verdict != more[j].verdict
  {
    if |told| <= j {
      assert extra[j - |told|] in extra && told[i] in told;
    }
  }

  lemma MarksJustified(s: Setup, w: World, told: seq<nat>, extra: seq<nat>, clock: nat -> int)
    requires AlertsJustified(s, w) && Telling(w.db, s.policy, told, extra)
    ensures AlertsJustified(s, Told(w, told, extra, clock))
  {
    MarkedRows(w.db, told, clock);
    var more, after := Recorded(told) + Unrecorded(extra), Told(w, told, extra, clock);
    NoticesKnown(told, extra);
    forall i | 0 <= i < |after.told| && after.told[i].verdict in after.db.verdicts
      ensures Justified(s, after.db, after.db.verdicts[after.told[i].verdict])
    {
      if |w.told| <= i {
        assert after.told[i] in more;
      } else {
        assert after.told[i] == w.told[i];
      }
    }
  }

  lemma MarksKeepVerdicts(w: World, told: seq<nat>, extra: seq<nat>, clock: nat -> int)
    requires VerdictsGrounded(w)
    ensures VerdictsGrounded(Told(w, told, extra, clock))
  {
    MarkedRows(w.db, told, clock);
  }

  // ------------------------------------------------- every reachable state

  lemma BackgroundKeepsInv(s: Setup, w: World, e: Event)
    requires Inv(s, w) && Enabled(s, w, e) && (e.Flush? || e.RescoreAll? || e.Clear? || e.ClearFailed?)
    ensures Inv(s, Apply(s, w, e))
  {
    match e
    case Flush(rows) =>
      FlushOnlyMatches(w.db, s.threshold, rows);
      MatchesStepKeepsInv(s, w, WriteRows(w.db, s.threshold, rows));
    case RescoreAll(score, newThreshold) => MatchesStepKeepsInv(s, w, RescoreDb(w.db, score, newThreshold));
    case Clear(_, _, _, cleared) => ClearKeepsInv(s, w, Elements(cleared));
    case ClearFailed(backend) => ClearKeepsInv(s, w, FailedVerdicts(w.db, backend));
  }

  lemma BeginningKeepsInv(s: Setup, w: World, e: Event)
    requires Inv(s, w) && Enabled(s, w, e) && (e.BeginAlerts? || e.BeginFeed? || e.BeginClassify? || e.LeaveStage?)
    ensures Inv(s, Apply(s, w, e))
  {
    match e
    case BeginAlerts(jobId, _, _, hosts) => BeginKeepsInv(s, w, jobId, hosts);
    case BeginFeed(jobId, targets) => BeginKeepsInv(s, w, jobId, targets);
    case BeginClassify(backend, model, limit, ids) => BeginClassifyKeepsInv(s, w, backend, model, limit, ids);
    case LeaveStage =>
  }

  lemma ToldWerePending(db: Db, p: Policy, page: AlertPage, done: nat)
    requires IsPage(page.ids, PendingAlertIds(db, p), AlertOrder(db.verdicts), page.limit) && done <= |page.ids|
    ensures var told := Announced(page.sinks, page.accepts, page.ids, done);
            && Distinct(told) && (forall v :: v in told ==> v in PendingAlertIds(db, p))
            && (done < |page.ids| ==> page.ids[done] in PendingAlertIds(db, p) && page.ids[done] !in told)
  {
    var ids := page.ids;
    AnnouncedExact(page.sinks, page.accepts, ids, done);
    PageTakes(ids, PendingAlertIds(db, p), AlertOrder(db.verdicts), page.limit);
    assert forall i :: 0 <= i < |ids| ==> ids[i] in Elements(ids);
  }

  /** The finding the store failed to record, if any. */
  function Lost(page: AlertPage, done: nat, unrecorded: bool): (extra: seq<nat>)
    requires done <= |page.ids| && (unrecorded ==> done < |page.ids|)
    ensures NoticesOf(page, done, unrecorded)
         == Recorded(Announced(page.sinks, page.accepts, page.ids, done)) + Unrecorded(extra)
  {
    if unrecorded then [page.ids[done]] else []
  }

  lemma AnnouncingKeepsInv(s: Setup, w: World, page: AlertPage, done: nat, unrecorded: bool)
    requires Inv(s, w) && w.stage.Idle? && CanAnnounce(w.db, s.policy, page, done, unrecorded)
    ensures Inv(s, Apply(s, w, Announce(page, done, unrecorded)))
  {
    var told, extra := Announced(page.sinks, page.accepts, page.ids, done), Lost(page, done, unrecorded);
    PageTelling(w.db, s.policy, page, done, unrecorded);
    AnnounceKeepsInv(s, w, told, extra, page.clock);
    AppliedIsTold(s, w, page, done, unrecorded);
  }

  lemma PageTelling(db: Db, p: Policy, page: AlertPage, done: nat, unrecorded: bool)
    requires CanAnnounce(db, p, page, done, unrecorded)
    ensures Telling(db, p, Announced(page.sinks, page.accepts, page.ids, done), Lost(page, done, unrecorded))
  {
    ToldWerePending(db, p, page, done);
  }

  lemma AppliedIsTold(s: Setup, w: World, page: AlertPage, done: nat, unrecorded: bool)
    requires w.stage.Idle? && CanAnnounce(w.db, s.policy, page, done, unrecorded)
    ensures Apply(s, w, Announce(page, done, unrecorded))
         == Told(w, Announced(page.sinks, page.accepts, page.ids, done), Lost(page, done, unrecorded), page.clock)
  {
  }

  lemma StepKeepsInv(s: Setup, w: World, e: Event)
    requires PlainPath(s.capture.outputDir) && Inv(s, w) && Enabled(s, w, e)
    ensures Inv(s, Apply(s, w, e))
  {
    match e
    case EndVisit(visit, now, ok) => EndVisitKeepsInv(s, w, visit, now, ok);
    case ClassifyNext(c) => ClassifyNextKeepsInv(s, w, c);
    case Announce(_, _, _) => AnnouncingKeepsInv(s, w, e.page, e.done, e.unrecorded);
    case BeginAlerts(_, _, _, _) => BeginningKeepsInv(s, w, e);
    case BeginFeed(_, _) => BeginningKeepsInv(s, w, e);
    case BeginClassify(_, _, _, _) => BeginningKeepsInv(s, w, e);
    case LeaveStage => BeginningKeepsInv(s, w, e);
    case _ => BackgroundKeepsInv(s, w, e);
  }

  ghost function Step(s: Setup): (World, Event) -> Option<World> {
    (w: World, e: Event) => if Enabled(s, w, e) then Some(Apply(s, w, e)) else None
  }

  /** `es` can happen, one after another, from `w`, and leads to `last`. */
  ghost predicate Leads(s: Setup, w: World, es: seq<Event>, last: World) {
    Runs.Leads(Step(s), w, es, last)
  }

  ghost predicate Reachable(s: Setup, w: World) {
    exists es :: Leads(s, Start(), es, w)
  }

  lemma {:induction false} RunKeepsInv(s: Setup, w: World, es: seq<Event>, last: World)
    requires PlainPath(s.capture.outputDir) && Inv(s, w) && Leads(s, w, es, last)
    ensures Inv(s, last)
    decreases |es|
  {
    if es != [] {
      StepKeepsInv(s, w, es[0]);
      RunKeepsInv(s, Apply(s, w, es[0]), es[1..], last);
    }
  }

  lemma ReachableInv(s: Setup, w: World)
    requires PlainPath(s.capture.outputDir) && Reachable(s, w)
    ensures Inv(s, w)
  {
    var es :| Leads(s, Start(), es, w);
    RunKeepsInv(s, Start(), es, w);
  }

  /**
   * The main guarantee. In every reachable state, whatever the containers wrote, whichever models were asked and
   * however the tasks interleaved, a verdict that a sink was told of meets the policy, is about a host the scoring
   * found, and rests on a capture of that very host: visited for a job the host built, over a URL of that job,
   * successfully, with its screenshot below the capture directory.
   */
  lemma AnnouncedIsJustified(s: Setup, w: World, i: nat)
    requires PlainPath(s.capture.outputDir) && Reachable(s, w)
    requires Unreachable !in s.policy.labels && Unknown !in s.policy.labels
    requires i < |w.told| && w.told[i].verdict in w.db.verdicts
    ensures var verdict := w.db.verdicts[w.told[i].verdict];
            && verdict.kind in s.policy.labels && verdict.confidence >= s.policy.minConfidence
            && KnownByScoring(w.db.matches, verdict.fqdn)
            && verdict.captureId in w.db.captures && verdict.captureId in w.origins
            && var capture, job := w.db.captures[verdict.captureId], w.origins[verdict.captureId];
               && job in w.jobs && job.vantage == s.capture.vantage && capture.vantage == job.vantage
               && capture.result.fqdn == verdict.fqdn && verdict.fqdn in job.targets
               && capture.result.status.Ok?
               && (exists scheme :: scheme in s.capture.schemes && capture.result.url == UrlFor(scheme, verdict.fqdn))
               && capture.result.screenshot.Some? && PlainPath(capture.result.screenshot.value)
  {
    ReachableInv(s, w);
    var v := w.told[i].verdict;
    assert Justified(s, w.db, w.db.verdicts[v]);
    assert Grounded(w.db, w.db.verdicts[v]);
    assert Made(w.origins[w.db.verdicts[v].captureId], w.db.captures[w.db.verdicts[v].captureId]);
  }

  /**
   * In every reachable state a verdict was told of again only where the store had failed to record the time before,
   * a verdict is marked as announced exactly when a recorded notice says so, and none marked is still pending.
   */
  lemma AnnouncedOnce(s: Setup, w: World)
    requires PlainPath(s.capture.outputDir) && Reachable(s, w)
    ensures forall i, j :: 0 <= i < j < |w.told| && w.told[i].verdict == w.told[j].verdict ==> !w.told[i].recorded
    ensures forall v :: v in w.db.verdicts ==> (w.db.verdicts[v].alertedAt.Some? <==> Notice(v, true) in w.told)
    ensures forall v :: Notice(v, true) in w.told ==> v !in PendingAlertIds(w.db, s.policy)
  {
    ReachableInv(s, w);
  }

  /**
   * In every reachable state there is one verdict per capture, backend and model, with any number of backends and
   * models in the one table, and although the constraint does not see a missing model.
   */
  lemma OneVerdictEach(s: Setup, w: World)
    requires PlainPath(s.capture.outputDir) && Reachable(s, w)
    ensures UniqueVerdicts(w.db)
  {
    ReachableInv(s, w);
  }
}
