/** The host side of a capture (capture/runner.py, capture/feed_entries.py). */
module CaptureRunner {
  import opened Wrappers
  import opened Text
  import opened Scoring
  import opened Certificates
  import opened Captures
  import opened Hostnames
  import opened Handoff
  import opened Store
  import opened Draining

  datatype CaptureConfig = CaptureConfig(outputDir: Path, schemes: seq<string>, vantage: Option<string>, maxPerRun: nat)

  /** How the executor ended: normally, with a CaptureExecutionError, or with anything else. */
  datatype Ending = Returned | ExecutionFailed | Raised

  /** Whatever the container left behind, and whether the host can delete the files of the job afterwards. */
  datatype Visit = Visit(file: ResultsFile, look: Path -> Lookup, loops: Loops, ending: Ending, cleaned: bool)

  datatype CaptureRunStats = CaptureRunStats(attempted: nat, saveFailures: nat, rejected: nat, missing: int,
                                             executionFailed: bool, byStatus: multiset<Status>)

  const NO_STATS := CaptureRunStats(0, 0, 0, 0, false, multiset{})

  predicate UsableConfig(config: CaptureConfig) {
    AllowedSchemes(config.schemes) && config.schemes != []
  }

  // ------------------------------------------------- what a run saves

  /** `list(dict.fromkeys(xs))`. */
  function FromKeys(xs: seq<string>): (ys: seq<string>)
    ensures Distinct(ys) && Elements(ys) == Elements(xs)
  {
    if xs == [] then [] else
      var last := xs[|xs| - 1];
      var ys := FromKeys(xs[..|xs| - 1]);
      assert Elements(xs) == Elements(xs[..|xs| - 1]) + {last} by {
        assert xs == xs[..|xs| - 1] + [last];
      }
      assert last in ys <==> last in Elements(ys);
      assert Elements(ys + [last]) == Elements(ys) + {last};
      if last in ys then ys else ys + [last]
  }

  function JobFor(config: CaptureConfig, jobId: string, hosts: seq<string>): (job: Job)
    ensures Distinct(job.targets) && Elements(job.targets) == Elements(hosts)
    ensures job.schemes == config.schemes && job.vantage == config.vantage
  {
    Job(jobId, FromKeys(hosts), config.schemes, config.vantage)
  }

  /** The row the host writes from its own job for a target the container left unanswered. */
  function ErrorCapture(job: Job, fqdn: string, now: int): CaptureRow
    requires AllowedSchemes(job.schemes) && job.schemes != []
  {
    CaptureRow(CaptureResult(fqdn, CandidateUrls(fqdn, job.schemes).value[0], Error, now, 0,
                             None, None, None, None, None,
                             Some("no valid result from the capture container")), job.vantage)
  }

  predicate Answered(results: seq<CaptureResult>, fqdn: string) {
    exists i | 0 <= i < |results| :: results[i].fqdn == fqdn
  }

  function ErrorRows(job: Job, results: seq<CaptureResult>, targets: seq<string>, now: int): seq<CaptureRow>
    requires AllowedSchemes(job.schemes) && job.schemes != []
  {
    if targets == [] then [] else
      var last := targets[|targets| - 1];
      ErrorRows(job, results, targets[..|targets| - 1], now)
      + if Answered(results, last) then [] else [ErrorCapture(job, last, now)]
  }

  function ResultRows(job: Job, results: seq<CaptureResult>): (rows: seq<CaptureRow>)
    ensures |rows| == |results| && forall i :: 0 <= i < |rows| ==> rows[i] == CaptureRow(results[i], job.vantage)
  {
    seq(|results|, i requires 0 <= i < |results| => CaptureRow(results[i], job.vantage))
  }

  /** After a failed execution the unvisited targets stay pending. */
  function ErrorsFor(job: Job, report: ImportReport, ending: Ending, now: int): seq<CaptureRow>
    requires AllowedSchemes(job.schemes) && job.schemes != []
  {
    if ending.ExecutionFailed? then [] else ErrorRows(job, report.results, job.targets, now)
  }

  /** The rows a run tries to save, in order. */
  function RowsToSave(job: Job, report: ImportReport, ending: Ending, now: int): seq<CaptureRow>
    requires AllowedSchemes(job.schemes) && job.schemes != []
  {
    ErrorsFor(job, report, ending, now) + ResultRows(job, report.results)
  }

  /** Saves one after another; `ok` says which succeed, counting from `start`. */
  function SaveRows(db: Db, rows: seq<CaptureRow>, ok: nat -> bool, start: nat): Db {
    if rows == [] then db else
      var n := |rows| - 1;
      var before := SaveRows(db, rows[..n], ok, start);
      if ok(start + n) then AddCapture(before, rows[n]) else before
  }

  function Failures(ok: nat -> bool, start: nat, n: nat): nat {
    if n == 0 then 0 else Failures(ok, start, n - 1) + if ok(start + n - 1) then 0 else 1
  }

  lemma {:induction false} SaveConcat(db: Db, a: seq<CaptureRow>, b: seq<CaptureRow>, ok: nat -> bool, start: nat)
    ensures SaveRows(db, a + b, ok, start) == SaveRows(SaveRows(db, a, ok, start), b, ok, start + |a|)
  {
    if b == [] {
      assert a + b == a;
    } else {
      assert (a + b)[..|a + b| - 1] == a + b[..|b| - 1];
      SaveConcat(db, a, b[..|b| - 1], ok, start);
    }
  }

  // ------------------------------------------------- run_captures

  function HostFor(decode: string -> Option<Record>, config: CaptureConfig, job: Job, visit: Visit): Host {
    Host(decode, config.outputDir, visit.look, visit.loops, job)
  }

  function StatsOf(job: Job, report: ImportReport, ending: Ending, ok: nat -> bool): CaptureRunStats
    requires AllowedSchemes(job.schemes) && job.schemes != []
  {
    var n := |report.results|;
    CaptureRunStats(n, Failures(ok, |ErrorsFor(job, report, ending, 0)|, n), |report.rejected|, |job.targets| - n,
                    ending.ExecutionFailed?, StatusesOf(report.results))
  }

  function StatusesOf(results: seq<CaptureResult>): multiset<Status> {
    if results == [] then multiset{} else
      StatusesOf(results[..|results| - 1]) + multiset{results[|results| - 1].status}
  }

  /** `_record_without_result`. */
  method RecordWithoutResult(store: MatchStore, report: ImportReport, job: Job, now: int, ok: nat -> bool)
    returns (tried: nat)
    requires AllowedSchemes(job.schemes) && job.schemes != []
    modifies store
    ensures store.Snapshot() == SaveRows(old(store.Snapshot()), ErrorRows(job, report.results, job.targets, now), ok, 0)
    ensures tried == |ErrorRows(job, report.results, job.targets, now)|
  {
    tried := 0;
    ghost var start := store.Snapshot();
    for i := 0 to |job.targets|
      invariant store.Snapshot() == SaveRows(start, ErrorRows(job, report.results, job.targets[..i], now), ok, 0)
      invariant tried == |ErrorRows(job, report.results, job.targets[..i], now)|
    {
      var fqdn := job.targets[i];
      ErrorRowsStep(job, report.results, i, now);
      if !Answered(report.results, fqdn) {
        var row := ErrorCapture(job, fqdn, now);
        SaveStep(start, ErrorRows(job, report.results, job.targets[..i], now), row, ok, 0);
        TrySave(store, row, ok(tried));
        tried := tried + 1;
      }
    }
    assert job.targets[..|job.targets|] == job.targets;
  }

  lemma ErrorRowsStep(job: Job, results: seq<CaptureResult>, i: nat, now: int)
    requires AllowedSchemes(job.schemes) && job.schemes != [] && i < |job.targets|
    ensures var before, after := ErrorRows(job, results, job.targets[..i], now),
                                 ErrorRows(job, results, job.targets[..i + 1], now);
            after == if Answered(results, job.targets[i]) then before
                     else before + [ErrorCapture(job, job.targets[i], now)]
  {
    assert job.targets[..i + 1][..i] == job.targets[..i];
  }

  /** One save that may fail; the failure is logged and the batch goes on. */
  method TrySave(store: MatchStore, row: CaptureRow, ok: bool)
    modifies store
    ensures store.Snapshot() == if ok then AddCapture(old(store.Snapshot()), row) else old(store.Snapshot())
  {
    if ok {
      store.SaveCapture(row.result, row.vantage);
    }
  }

  lemma SaveStep(db: Db, rows: seq<CaptureRow>, row: CaptureRow, ok: nat -> bool, start: nat)
    ensures SaveRows(db, rows + [row], ok, start)
         == var before := SaveRows(db, rows, ok, start); if ok(start + |rows|) then AddCapture(before, row) else before
  {
    assert (rows + [row])[..|rows|] == rows;
  }

  lemma SaveNext(db: Db, rows: seq<CaptureRow>, i: nat, ok: nat -> bool, start: nat)
    requires i < |rows|
    ensures SaveRows(db, rows[..i + 1], ok, start)
         == var before := SaveRows(db, rows[..i], ok, start);
            if ok(start + i) then AddCapture(before, rows[i]) else before
  {
    assert rows[..i + 1] == rows[..i] + [rows[i]];
    SaveStep(db, rows[..i], rows[i], ok, start);
  }

  /** The counters after the first `i` results. */
  function Counted(stats0: CaptureRunStats, results: seq<CaptureResult>, ok: nat -> bool, start: nat,
                   i: nat): CaptureRunStats
    requires i <= |results|
  {
    stats0.(attempted := i, saveFailures := Failures(ok, start, i), byStatus := StatusesOf(results[..i]))
  }

  function CountOne(stats: CaptureRunStats, status: Status, saved: bool): CaptureRunStats {
    stats.(attempted := stats.attempted + 1, saveFailures := stats.saveFailures + if saved then 0 else 1,
           byStatus := stats.byStatus + multiset{status})
  }

  lemma CountedStep(stats0: CaptureRunStats, results: seq<CaptureResult>, ok: nat -> bool, start: nat, i: nat)
    requires i < |results|
    ensures Counted(stats0, results, ok, start, i + 1)
         == CountOne(Counted(stats0, results, ok, start, i), results[i].status, ok(start + i))
  {
    assert results[..i + 1][..i] == results[..i];
  }

  /** The loop over accepted results. */
  method SaveResults(store: MatchStore, results: seq<CaptureResult>, job: Job, ok: nat -> bool, start: nat,
                     stats0: CaptureRunStats)
    returns (stats: CaptureRunStats)
    requires stats0.attempted == 0 && stats0.saveFailures == 0 && stats0.byStatus == multiset{}
    modifies store
    ensures store.Snapshot() == SaveRows(old(store.Snapshot()), ResultRows(job, results), ok, start)
    ensures stats == Counted(stats0, results, ok, start, |results|)
  {
    stats := stats0;
    ghost var rows := ResultRows(job, results);
    for i := 0 to |results|
      invariant store.Snapshot() == SaveRows(old(store.Snapshot()), rows[..i], ok, start)
      invariant stats == Counted(stats0, results, ok, start, i)
    {
      CountedStep(stats0, results, ok, start, i);
      SaveNext(old(store.Snapshot()), rows, i, ok, start);
      stats := CountOne(stats, results[i].status, ok(start + i));
      TrySave(store, CaptureRow(results[i], job.vantage), ok(start + i));
    }
    assert rows[..|rows|] == rows;
  }

  /** The error rows, unless the execution failed. */
  method SaveErrors(store: MatchStore, report: ImportReport, job: Job, ending: Ending, now: int, ok: nat -> bool)
    returns (tried: nat)
    requires AllowedSchemes(job.schemes) && job.schemes != []
    modifies store
    ensures store.Snapshot() == SaveRows(old(store.Snapshot()), ErrorsFor(job, report, ending, now), ok, 0)
    ensures tried == |ErrorsFor(job, report, ending, now)| == |ErrorsFor(job, report, ending, 0)|
  {
    tried := 0;
    if !ending.ExecutionFailed? {
      tried := RecordWithoutResult(store, report, job, now, ok);
      ErrorRowsCount(job, report.results, job.targets, now, 0);
    }
  }

  lemma CountedAll(job: Job, report: ImportReport, ending: Ending, ok: nat -> bool, stats: CaptureRunStats)
    requires AllowedSchemes(job.schemes) && job.schemes != []
    requires stats == NO_STATS.(rejected := |report.rejected|, missing := |job.targets| - |report.results|,
                                executionFailed := ending.ExecutionFailed?)
    ensures Counted(stats, report.results, ok, |ErrorsFor(job, report, ending, 0)|, |report.results|)
         == StatsOf(job, report, ending, ok)
  {
    assert report.results[..|report.results|] == report.results;
  }

  /** `_save`. */
  method Save(store: MatchStore, report: ImportReport, job: Job, ending: Ending, now: int, ok: nat -> bool)
    returns (stats: CaptureRunStats)
    requires AllowedSchemes(job.schemes) && job.schemes != []
    modifies store
    ensures store.Snapshot() == SaveRows(old(store.Snapshot()), RowsToSave(job, report, ending, now), ok, 0)
    ensures stats == StatsOf(job, report, ending, ok)
  {
    stats := NO_STATS.(rejected := |report.rejected|, missing := |job.targets| - |report.results|,
                       executionFailed := ending.ExecutionFailed?);
    CountedAll(job, report, ending, ok, stats);
    SaveConcat(store.Snapshot(), ErrorsFor(job, report, ending, now), ResultRows(job, report.results), ok, 0);
    var start := SaveErrors(store, report, job, ending, now, ok);
    stats := SaveResults(store, report.results, job, ok, start, stats);
  }

  lemma {:induction false} ErrorRowsCount(job: Job, results: seq<CaptureResult>, targets: seq<string>, now: int,
                                          then_: int)
    requires AllowedSchemes(job.schemes) && job.schemes != []
    ensures |ErrorRows(job, results, targets, now)| == |ErrorRows(job, results, targets, then_)|
  {
    if targets != [] { ErrorRowsCount(job, results, targets[..|targets| - 1], now, then_); }
  }

  /** The ingest task's flushes while another stage awaits. */
  method Await(store: MatchStore, flushes: seq<seq<Sighting>>)
    modifies store
    ensures store.Snapshot() == WriteBatches(old(store.Snapshot()), store.alertThreshold, flushes)
  {
    for i := 0 to |flushes|
      invariant store.Snapshot() == WriteBatches(old(store.Snapshot()), store.alertThreshold, flushes[..i])
    {
      assert flushes[..i + 1][..i] == flushes[..i];
      var inserted := store.Write(flushes[i]);
    }
    assert flushes[..|flushes|] == flushes;
  }

  /** The hosts a run is for: those given, else a page of the pending ones. */
  ghost predicate Chosen(db: Db, config: CaptureConfig, limit: Option<nat>, targets: Option<seq<string>>, cutoff: int,
                         hosts: seq<string>) {
    if targets.Some? then hosts == targets.value
    else IsPage(hosts, PendingHosts(db, cutoff), HostOrder(db.matches), PageSize(config, limit))
  }

  /** `limit or config.max_per_run`. */
  function PageSize(config: CaptureConfig, limit: Option<nat>): nat {
    if limit.Some? && limit.value != 0 then limit.value else config.maxPerRun
  }

  /** No row can be made of what was imported, or the import itself ended with an exception. */
  predicate SavesNothing(h: Host, config: CaptureConfig, file: ResultsFile) {
    !UsableConfig(config) || ImportRaises(h, file)
  }

  /** The database after a run for `hosts`, flushes included. */
  function AfterRun(db: Db, threshold: real, decode: string -> Option<Record>, config: CaptureConfig, jobId: string,
                    hosts: seq<string>, visit: Visit, flushes: seq<seq<Sighting>>, now: int, ok: nat -> bool): Db
  {
    var job := JobFor(config, jobId, hosts);
    var flushed := WriteBatches(db, threshold, flushes);
    var h := HostFor(decode, config, job, visit);
    if SavesNothing(h, config, visit.file) then flushed
    else SaveRows(flushed, RowsToSave(job, Imported(h, visit.file), visit.ending, now), ok, 0)
  }

  /**
   * Whether an exception is passed on to the caller: the executor's own, one raised by the import, by the first error
   * row over a configuration with no scheme or an unsupported one, or by the deletion of the job's files.
   */
  predicate RunRaises(h: Host, config: CaptureConfig, visit: Visit) {
    || visit.ending.Raised? || ImportRaises(h, visit.file) || !visit.cleaned
    || (!UsableConfig(config) && !visit.ending.ExecutionFailed?)
  }

  /** With such a configuration no result is accepted, so the first target of all is without one. */
  lemma UnusableAcceptsNothing(h: Host, file: ResultsFile)
    requires !AllowedSchemes(h.job.schemes) || h.job.schemes == []
    ensures Imported(h, file).results == []
    ensures forall fqdn :: !Answered(Imported(h, file).results, fqdn)
  {
    if file.Regular? && file.size <= MAX_RESULTS_BYTES {
      NoLineAccepted(h, SplitLines(file.text), |SplitLines(file.text)|);
    }
  }

  lemma {:induction false} NoLineAccepted(h: Host, lines: seq<string>, n: nat)
    requires n <= |lines| && (!AllowedSchemes(h.job.schemes) || h.job.schemes == [])
    ensures SpecReport(h, lines, n).results == []
  {
    if n > 0 { NoLineAccepted(h, lines, n - 1); }
  }

  /** What an unusable configuration leaves to report after a failed execution. */
  function NothingSaved(job: Job, report: ImportReport): CaptureRunStats {
    NO_STATS.(rejected := |report.rejected|, missing := |job.targets|, executionFailed := true)
  }

  /**
   * `run_captures`, against any container output and any ending. `raised` is an exception passed on to the caller:
   * after the `finally` block has saved what was imported, unless the import is where it was raised.
   */
  method RunCaptures(store: MatchStore, decode: string -> Option<Record>, config: CaptureConfig, limit: Option<nat>,
                     targets: Option<seq<string>>, jobId: string, visit: Visit, flushes: seq<seq<Sighting>>,
                     cutoff: int, now: int, ok: nat -> bool)
    returns (stats: CaptureRunStats, raised: bool, ghost hosts: seq<string>)
    modifies store
    ensures Chosen(old(store.Snapshot()), config, limit, targets, cutoff, hosts)
    ensures hosts == [] ==> store.Snapshot() == old(store.Snapshot()) && stats == NO_STATS && !raised
    ensures hosts != [] ==>
              store.Snapshot() == AfterRun(old(store.Snapshot()), store.alertThreshold, decode, config, jobId, hosts,
                                           visit, flushes, now, ok)
    ensures hosts != [] ==>
              var job := JobFor(config, jobId, hosts);
              var h := HostFor(decode, config, job, visit);
              && (raised <==> RunRaises(h, config, visit))
              && (!SavesNothing(h, config, visit.file) ==>
                    stats == StatsOf(job, Imported(h, visit.file), visit.ending, ok))
              && (!UsableConfig(config) && !raised ==> stats == NothingSaved(job, Imported(h, visit.file)))
  {
    var pending;
    if targets.Some? {
      pending := targets.value;
    } else {
      pending := store.PendingCaptures(PageSize(config, limit), cutoff);
    }
    hosts, stats, raised := pending, NO_STATS, false;
    if pending == [] {
      return;
    }
    var job := JobFor(config, jobId, pending);
    Await(store, flushes);
    var report;
    report, raised := ImportResults(HostFor(decode, config, job, visit), visit.file);
    if raised {
      return;
    }
    if !UsableConfig(config) {
      UnusableAcceptsNothing(HostFor(decode, config, job, visit), visit.file);
      raised := !visit.ending.ExecutionFailed?;
      if raised {
        return;
      }
      stats := NothingSaved(job, report);
    } else {
      stats := Save(store, report, job, visit.ending, now, ok);
    }
    raised := visit.ending.Raised? || !visit.cleaned;
  }

  // ------------------------------------------------- accounting

  function HostsOf(rows: seq<CaptureRow>): (hosts: seq<string>)
    ensures |hosts| == |rows| && forall i :: 0 <= i < |rows| ==> hosts[i] == rows[i].result.fqdn
  {
    seq(|rows|, i requires 0 <= i < |rows| => rows[i].result.fqdn)
  }

  lemma ImportedOneEach(h: Host, file: ResultsFile)
    ensures OneEach(h.job.targets, Imported(h, file).results)
  {
    if file.Regular? && file.size <= MAX_RESULTS_BYTES {
      OneResultPerHost(h, SplitLines(file.text));
    }
  }

  lemma {:induction false} ErrorRowsOnly(job: Job, results: seq<CaptureResult>, targets: seq<string>, now: int)
    requires AllowedSchemes(job.schemes) && job.schemes != []
    ensures forall r :: r in ErrorRows(job, results, targets, now) ==>
              r.result.fqdn in targets && !Answered(results, r.result.fqdn)
                && r == ErrorCapture(job, r.result.fqdn, now)
    ensures forall f :: f in targets && !Answered(results, f) ==>
              ErrorCapture(job, f, now) in ErrorRows(job, results, targets, now)
  {
    if targets != [] {
      ErrorRowsOnly(job, results, targets[..|targets| - 1], now);
      assert targets == targets[..|targets| - 1] + [targets[|targets| - 1]];
    }
  }

  lemma {:induction false} ErrorRowsDistinct(job: Job, results: seq<CaptureResult>, targets: seq<string>, now: int)
    requires AllowedSchemes(job.schemes) && job.schemes != [] && Distinct(targets)
    ensures Distinct(HostsOf(ErrorRows(job, results, targets, now)))
  {
    if targets != [] {
      var front, last := targets[..|targets| - 1], targets[|targets| - 1];
      var rows := ErrorRows(job, results, front, now);
      ErrorRowsDistinct(job, results, front, now);
      ErrorRowsOnly(job, results, front, now);
      forall i | 0 <= i < |rows|
        ensures HostsOf(rows)[i] != last
      {
        assert rows[i] in rows;
      }
      if !Answered(results, last) {
        assert HostsOf(rows + [ErrorCapture(job, last, now)]) == HostsOf(rows) + [last];
      }
    }
  }

  /**
   * A run saves, or tries to save, exactly one row per distinct target; after a failed execution, the accepted ones
   * only.
   */
  lemma OneRowPerTarget(job: Job, report: ImportReport, ending: Ending, now: int)
    requires AllowedSchemes(job.schemes) && job.schemes != [] && Distinct(job.targets)
    requires OneEach(job.targets, report.results)
    ensures ending.ExecutionFailed? ==> RowsToSave(job, report, ending, now) == ResultRows(job, report.results)
    ensures !ending.ExecutionFailed? ==>
              var hosts := HostsOf(RowsToSave(job, report, ending, now));
              Distinct(hosts) && Elements(hosts) == Elements(job.targets)
    ensures forall r :: r in RowsToSave(job, report, ending, now) ==>
              || (exists i :: 0 <= i < |report.results| && r == CaptureRow(report.results[i], job.vantage))
              || (r == ErrorCapture(job, r.result.fqdn, now) && r.result.fqdn in job.targets
                  && !Answered(report.results, r.result.fqdn))
  {
    var errors, accepted := ErrorRows(job, report.results, job.targets, now), ResultRows(job, report.results);
    ErrorRowsOnly(job, report.results, job.targets, now);
    ErrorRowsDistinct(job, report.results, job.targets, now);
    if ending.ExecutionFailed? {
      assert [] + accepted == accepted;
    } else {
      HostsDistinct(errors, accepted, report.results, job.targets);
      HostsComplete(job, report.results, errors, now);
    }
  }

  lemma HostsComplete(job: Job, results: seq<CaptureResult>, errors: seq<CaptureRow>, now: int)
    requires AllowedSchemes(job.schemes) && job.schemes != [] && OneEach(job.targets, results)
    requires forall r :: r in errors ==> r.result.fqdn in job.targets
    requires forall f :: f in job.targets && !Answered(results, f) ==> ErrorCapture(job, f, now) in errors
    ensures Elements(HostsOf(errors + ResultRows(job, results))) == Elements(job.targets)
  {
    var rows := errors + ResultRows(job, results);
    var hosts := HostsOf(rows);
    forall f | f in hosts
      ensures f in job.targets
    {
      var i :| 0 <= i < |hosts| && hosts[i] == f;
      if i < |errors| { assert errors[i] in errors; }
    }
    forall f | f in job.targets
      ensures f in hosts
    {
      var i: nat;
      if Answered(results, f) {
        i := |errors| + IndexOf(results, f);
      } else {
        i :| 0 <= i < |errors| && errors[i] == ErrorCapture(job, f, now);
      }
      assert hosts[i] == f;
    }
  }

  function IndexOf(results: seq<CaptureResult>, fqdn: string): (i: nat)
    requires Answered(results, fqdn)
    ensures i < |results| && results[i].fqdn == fqdn
  {
    if results[0].fqdn == fqdn then 0 else
      assert exists j :: 0 <= j < |results[1..]| && results[1..][j].fqdn == fqdn by {
        var k :| 0 <= k < |results| && results[k].fqdn == fqdn;
        assert results[1..][k - 1] == results[k];
      }
      1 + IndexOf(results[1..], fqdn)
  }

  lemma HostsDistinct(errors: seq<CaptureRow>, accepted: seq<CaptureRow>, results: seq<CaptureResult>,
                      targets: seq<string>)
    requires Distinct(HostsOf(errors)) && OneEach(targets, results)
    requires |accepted| == |results| && forall i :: 0 <= i < |results| ==> accepted[i].result == results[i]
    requires forall r :: r in errors ==> !Answered(results, r.result.fqdn)
    ensures Distinct(HostsOf(errors + accepted))
  {
    var hosts := HostsOf(errors + accepted);
    forall i, j | 0 <= i < j < |hosts|
      ensures hosts[i] != hosts[j]
    {
      if j < |errors| {
        assert hosts[i] == HostsOf(errors)[i] && hosts[j] == HostsOf(errors)[j];
      } else {
        assert hosts[j] == results[j - |errors|].fqdn;
        if i < |errors| {
          assert errors[i] in errors && hosts[i] == errors[i].result.fqdn;
        } else {
          assert hosts[i] == results[i - |errors|].fqdn;
        }
      }
    }
  }

  /** Every target is accounted for once: attempted or missing. */
  lemma TargetsAccounted(h: Host, file: ResultsFile, ending: Ending, ok: nat -> bool)
    requires AllowedSchemes(h.job.schemes) && h.job.schemes != [] && Distinct(h.job.targets)
    ensures var stats := StatsOf(h.job, Imported(h, file), ending, ok);
            stats.attempted + stats.missing == |Elements(h.job.targets)| && stats.missing >= 0
            && |stats.byStatus| == stats.attempted
  {
    var results := Imported(h, file).results;
    ImportedOneEach(h, file);
    DistinctSize(h.job.targets);
    var hosts := HostsOf(ResultRows(h.job, results));
    DistinctSize(hosts);
    assert Elements(hosts) <= Elements(h.job.targets);
    SubsetSize(Elements(hosts), Elements(h.job.targets));
    StatusesCount(results);
  }

  lemma SubsetSize<T>(a: set<T>, b: set<T>)
    requires a <= b
    ensures |a| <= |b|
  {
    assert b == a + (b - a);
  }

  lemma {:induction false} StatusesCount(results: seq<CaptureResult>)
    ensures |StatusesOf(results)| == |results|
  {
    if results != [] { StatusesCount(results[..|results| - 1]); }
  }

  // ------------------------------------------------- what stays pending

  /** The hosts whose saved row is recent enough to count. */
  function Visited(rows: seq<CaptureRow>, ok: nat -> bool, start: nat, cutoff: int): set<string> {
    set i | 0 <= i < |rows| && ok(start + i) && rows[i].result.capturedAt > cutoff :: rows[i].result.fqdn
  }

  ghost predicate Numbered(db: Db) {
    forall id :: id in db.captures ==> id < db.nextCapture
  }

  lemma {:induction false} CapturedAfterSaves(db: Db, rows: seq<CaptureRow>, ok: nat -> bool, start: nat, cutoff: int,
                                              fqdn: string)
    requires Numbered(db)
    ensures var after := SaveRows(db, rows, ok, start);
            && Numbered(after)
            && (CapturedAfter(after.captures, fqdn, cutoff) <==>
                  CapturedAfter(db.captures, fqdn, cutoff) || fqdn in Visited(rows, ok, start, cutoff))
            && after.matches == db.matches
  {
    if rows != [] {
      var n := |rows| - 1;
      CapturedAfterSaves(db, rows[..n], ok, start, cutoff, fqdn);
      var before := SaveRows(db, rows[..n], ok, start);
      VisitedStep(rows, ok, start, cutoff, fqdn);
      if ok(start + n) {
        CapturedAfterAdd(before, rows[n], cutoff, fqdn);
      }
    }
  }

  lemma VisitedStep(rows: seq<CaptureRow>, ok: nat -> bool, start: nat, cutoff: int, fqdn: string)
    requires rows != []
    ensures var n := |rows| - 1;
            fqdn in Visited(rows, ok, start, cutoff) <==>
              fqdn in Visited(rows[..n], ok, start, cutoff)
              || (ok(start + n) && rows[n].result.capturedAt > cutoff && rows[n].result.fqdn == fqdn)
  {
    var n := |rows| - 1;
    assert forall i :: 0 <= i < n ==> rows[..n][i] == rows[i];
    if fqdn in Visited(rows, ok, start, cutoff) {
      var i :| 0 <= i < |rows| && ok(start + i) && rows[i].result.capturedAt > cutoff && rows[i].result.fqdn == fqdn;
      assert i < n ==> rows[..n][i] == rows[i];
    }
    if fqdn in Visited(rows[..n], ok, start, cutoff) {
      var i :| 0 <= i < n && ok(start + i) && rows[..n][i].result.capturedAt > cutoff
               && rows[..n][i].result.fqdn == fqdn;
      assert rows[i] == rows[..n][i];
    }
  }

  lemma CapturedAfterAdd(db: Db, row: CaptureRow, cutoff: int, fqdn: string)
    requires Numbered(db)
    ensures CapturedAfter(AddCapture(db, row).captures, fqdn, cutoff) <==>
              CapturedAfter(db.captures, fqdn, cutoff) || (row.result.fqdn == fqdn && row.result.capturedAt > cutoff)
  {
    var after := AddCapture(db, row).captures;
    assert db.nextCapture in after && after[db.nextCapture] == row;
    assert forall id :: id in db.captures ==> id in after && after[id] == db.captures[id];
    assert forall id :: id in after ==> id == db.nextCapture || (id in db.captures && after[id] == db.captures[id]);
  }

  /** A run takes exactly the hosts with a saved, recent row off the pending list. */
  lemma PendingAfterSaves(db: Db, rows: seq<CaptureRow>, ok: nat -> bool, start: nat, cutoff: int)
    requires Numbered(db)
    ensures PendingHosts(SaveRows(db, rows, ok, start), cutoff)
         == PendingHosts(db, cutoff) - Visited(rows, ok, start, cutoff)
  {
    var after := SaveRows(db, rows, ok, start);
    CapturedAfterSaves(db, rows, ok, start, cutoff, "");
    forall f
      ensures f in PendingHosts(after, cutoff) <==> f in PendingHosts(db, cutoff) - Visited(rows, ok, start, cutoff)
    {
      CapturedAfterSaves(db, rows, ok, start, cutoff, f);
      PendingIff(db, cutoff, f);
      PendingIff(after, cutoff, f);
    }
  }

  lemma PendingIff(db: Db, cutoff: int, f: string)
    ensures f in PendingHosts(db, cutoff) <==>
              (exists k :: k in db.matches && IsAlertOf(db.matches, k, f)) && !CapturedAfter(db.captures, f, cutoff)
  {
    if exists k :: k in db.matches && IsAlertOf(db.matches, k, f) {
      var k :| k in db.matches && IsAlertOf(db.matches, k, f);
      assert k.fqdn == f;
    }
  }

  const ALWAYS: nat -> bool := i => true

  /** Hosts the scoring found alerts for. */
  function AlertHosts(db: Db): set<string> {
    set k | k in db.matches && db.matches[k].isAlert :: k.fqdn
  }

  /** Nothing a capture run depends on differs: not flushes about known hosts, not verdicts, not announcements. */
  ghost predicate SameQueue(a: Db, b: Db) {
    a.captures == b.captures && a.nextCapture == b.nextCapture && AlertHosts(a) == AlertHosts(b)
  }

  lemma SameQueuePending(a: Db, b: Db, cutoff: int)
    requires SameQueue(a, b)
    ensures PendingHosts(a, cutoff) == PendingHosts(b, cutoff)
  {
    PendingAreAlerts(a, cutoff);
    PendingAreAlerts(b, cutoff);
  }

  lemma PendingAreAlerts(db: Db, cutoff: int)
    ensures forall f :: f in PendingHosts(db, cutoff) <==> f in AlertHosts(db) && !CapturedAfter(db.captures, f, cutoff)
  {
    forall f
      ensures f in PendingHosts(db, cutoff) <==> f in AlertHosts(db) && !CapturedAfter(db.captures, f, cutoff)
    {
      PendingIff(db, cutoff, f);
      if f in AlertHosts(db) {
        var k :| k in db.matches && db.matches[k].isAlert && k.fqdn == f;
        assert IsAlertOf(db.matches, k, f);
      }
    }
  }

  /** The sightings make no new alert host: what reaches the threshold is about one already known. */
  ghost predicate NoNewAlerts(db: Db, threshold: real, batches: seq<seq<Sighting>>) {
    forall b, s :: b in batches && s in b && s.found.score >= threshold ==> s.found.fqdn in AlertHosts(db)
  }

  lemma {:induction false} FlushesKeepAlerts(db: Db, threshold: real, batches: seq<seq<Sighting>>)
    ensures var after := WriteBatches(db, threshold, batches);
            && after.captures == db.captures && after.nextCapture == db.nextCapture
            && AlertHosts(db) <= AlertHosts(after)
    ensures NoNewAlerts(db, threshold, batches) ==> SameQueue(db, WriteBatches(db, threshold, batches))
  {
    if batches != [] {
      var front, last := batches[..|batches| - 1], batches[|batches| - 1];
      var before := WriteBatches(db, threshold, front);
      assert batches == front + [last];
      FlushesKeepAlerts(db, threshold, front);
      InsertKeepsAlerts(before, threshold, last);
      assert NoNewAlerts(db, threshold, batches) ==>
          NoNewAlerts(db, threshold, front) && forall s :: s in last && s.found.score >= threshold ==>
            s.found.fqdn in AlertHosts(db) by {
        assert last in batches && forall b :: b in front ==> b in batches;
      }
    }
  }

  /** What a batch adds to the alert hosts, and that it takes none away. */
  lemma {:induction false} InsertKeepsAlerts(db: Db, threshold: real, rows: seq<Sighting>)
    ensures var after := WriteRows(db, threshold, rows);
            && AlertHosts(db) <= AlertHosts(after)
            && forall f :: f in AlertHosts(after) ==>
                 f in AlertHosts(db) || exists s :: s in rows && s.found.score >= threshold && s.found.fqdn == f
  {
    var after := WriteRows(db, threshold, rows);
    InsertKeeps(db.matches, threshold, rows);
    forall k | k in db.matches && db.matches[k].isAlert ensures k.fqdn in AlertHosts(after) {
      assert k in after.matches && after.matches[k] == db.matches[k];
    }
    forall f | f in AlertHosts(after)
      ensures f in AlertHosts(db) || exists s :: s in rows && s.found.score >= threshold && s.found.fqdn == f
    {
      var k :| k in after.matches && after.matches[k].isAlert && k.fqdn == f;
      InsertedIsSighting(db.matches, threshold, rows, k);
    }
  }

  lemma {:induction false} InsertedIsSighting(matches: map<Key, MatchRow>, threshold: real, rows: seq<Sighting>, k: Key)
    requires k in InsertMatches(matches, threshold, rows)
    ensures var row := InsertMatches(matches, threshold, rows)[k];
            || (k in matches && row == matches[k])
            || exists s :: s in rows && KeyOf(s) == k && row == RowOf(threshold, s)
    decreases |rows|
  {
    if rows != [] {
      InsertedIsSighting(InsertMatch(matches, threshold, rows[0]), threshold, rows[1..], k);
      assert rows[0] in rows && forall s :: s in rows[1..] ==> s in rows;
    }
  }

  /**
   * A full run: the executor returned, every save succeeded, and every saved timestamp is inside the recapture
   * window. Before and after the saves anything may happen that leaves the queue alone.
   */
  ghost predicate FullRun(db: Db, after: Db, config: CaptureConfig, limit: Option<nat>, cutoff: int) {
    exists hosts: seq<string>, flushed: Db, rows: seq<CaptureRow> ::
      Captured(db, hosts, flushed, rows, after, config, limit, cutoff)
  }

  ghost predicate Captured(db: Db, hosts: seq<string>, flushed: Db, rows: seq<CaptureRow>, after: Db,
                           config: CaptureConfig, limit: Option<nat>, cutoff: int) {
    && Chosen(db, config, limit, None, cutoff, hosts)
    && SameQueue(db, flushed) && SameQueue(SaveRows(flushed, rows, ALWAYS, 0), after)
    && Elements(HostsOf(rows)) == Elements(hosts)
    && forall i :: 0 <= i < |rows| ==> rows[i].result.capturedAt > cutoff
  }

  lemma FullRunTakesPage(db: Db, after: Db, config: CaptureConfig, limit: Option<nat>, cutoff: int)
    requires FullRun(db, after, config, limit, cutoff) && Numbered(db)
    ensures var pending, left := PendingHosts(db, cutoff), PendingHosts(after, cutoff);
            Batch(pending, left, PageSize(config, limit))
    ensures Numbered(after)
  {
    var hosts: seq<string>, flushed: Db, rows: seq<CaptureRow> :|
      Captured(db, hosts, flushed, rows, after, config, limit, cutoff);
    SavesTakePage(flushed, rows, hosts, cutoff);
    SameQueuePending(db, flushed, cutoff);
    SameQueuePending(SaveRows(flushed, rows, ALWAYS, 0), after, cutoff);
    PageTakes(hosts, PendingHosts(db, cutoff), HostOrder(db.matches), PageSize(config, limit));
  }

  lemma SavesTakePage(db: Db, rows: seq<CaptureRow>, hosts: seq<string>, cutoff: int)
    requires Numbered(db) && Elements(HostsOf(rows)) == Elements(hosts)
    requires forall i :: 0 <= i < |rows| ==> rows[i].result.capturedAt > cutoff
    ensures var saved := SaveRows(db, rows, ALWAYS, 0);
            Numbered(saved) && PendingHosts(saved, cutoff) == PendingHosts(db, cutoff) - Elements(hosts)
  {
    PendingAfterSaves(db, rows, ALWAYS, 0, cutoff);
    CapturedAfterSaves(db, rows, ALWAYS, 0, cutoff, "");
    AllVisited(rows, cutoff);
  }

  lemma AllVisited(rows: seq<CaptureRow>, cutoff: int)
    requires forall i :: 0 <= i < |rows| ==> rows[i].result.capturedAt > cutoff
    ensures Visited(rows, ALWAYS, 0, cutoff) == Elements(HostsOf(rows))
  {
    forall f | f in HostsOf(rows)
      ensures f in Visited(rows, ALWAYS, 0, cutoff)
    {
      var i :| 0 <= i < |rows| && HostsOf(rows)[i] == f;
      assert rows[i].result.fqdn == f;
    }
  }

  lemma {:induction false} NoSaveFails(db: Db, rows: seq<CaptureRow>, ok: nat -> bool, start: nat)
    requires forall n :: ok(n)
    ensures SaveRows(db, rows, ok, start) == SaveRows(db, rows, ALWAYS, 0)
  {
    if rows != [] { NoSaveFails(db, rows[..|rows| - 1], ok, start); }
  }

  /**
   * What `run_captures` does is a full run unless the execution failed, the import was broken off, a save failed or a
   * timestamp is stale; the ingest task may flush meanwhile, if not about a host that is a new alert.
   */
  lemma RunIsFull(db: Db, threshold: real, decode: string -> Option<Record>, config: CaptureConfig, limit: Option<nat>,
                  jobId: string, hosts: seq<string>, visit: Visit, flushes: seq<seq<Sighting>>, cutoff: int, now: int,
                  ok: nat -> bool)
    requires Chosen(db, config, limit, None, cutoff, hosts) && NoNewAlerts(db, threshold, flushes)
    requires !visit.ending.ExecutionFailed? && (forall n :: ok(n)) && now > cutoff
    requires var h := HostFor(decode, config, JobFor(config, jobId, hosts), visit);
             && !SavesNothing(h, config, visit.file)
             && forall r :: r in Imported(h, visit.file).results ==> r.capturedAt > cutoff
    ensures FullRun(db, AfterRun(db, threshold, decode, config, jobId, hosts, visit, flushes, now, ok), config, limit,
                    cutoff)
  {
    var job := JobFor(config, jobId, hosts);
    var h := HostFor(decode, config, job, visit);
    var report := Imported(h, visit.file);
    var rows := RowsToSave(job, report, visit.ending, now);
    var flushed := WriteBatches(db, threshold, flushes);
    ImportedOneEach(h, visit.file);
    OneRowPerTarget(job, report, visit.ending, now);
    NoSaveFails(flushed, rows, ok, 0);
    RowsAreRecent(job, report, visit.ending, now, cutoff);
    FlushesKeepAlerts(db, threshold, flushes);
    assert Captured(db, hosts, flushed, rows, SaveRows(flushed, rows, ok, 0), config, limit, cutoff);
  }

  lemma RowsAreRecent(job: Job, report: ImportReport, ending: Ending, now: int, cutoff: int)
    requires AllowedSchemes(job.schemes) && job.schemes != [] && Distinct(job.targets)
    requires OneEach(job.targets, report.results) && now > cutoff
    requires forall r :: r in report.results ==> r.capturedAt > cutoff
    ensures var rows := RowsToSave(job, report, ending, now);
            forall i :: 0 <= i < |rows| ==> rows[i].result.capturedAt > cutoff
  {
    var rows := RowsToSave(job, report, ending, now);
    OneRowPerTarget(job, report, ending, now);
    forall i | 0 <= i < |rows|
      ensures rows[i].result.capturedAt > cutoff
    {
      assert rows[i] in rows;
      if k :| 0 <= k < |report.results| && rows[i] == CaptureRow(report.results[k], job.vantage) {
        assert report.results[k] in report.results;
      }
    }
  }

  /**
   * Exactly when a target is still pending after its run, every save succeeding: its accepted result
   * carries a timestamp from before the window, or it has none and the host filed no error row.
   */
  lemma StillPendingIff(db: Db, h: Host, file: ResultsFile, ending: Ending, now: int, cutoff: int, fqdn: string)
    requires AllowedSchemes(h.job.schemes) && h.job.schemes != [] && Distinct(h.job.targets) && Numbered(db)
    requires fqdn in h.job.targets && fqdn in PendingHosts(db, cutoff)
    ensures var results := Imported(h, file).results;
            fqdn in PendingHosts(SaveRows(db, RowsToSave(h.job, Imported(h, file), ending, now), ALWAYS, 0),
                                 cutoff) <==>
              if Answered(results, fqdn) then results[IndexOf(results, fqdn)].capturedAt <= cutoff
              else ending.ExecutionFailed? || now <= cutoff
  {
    var report := Imported(h, file);
    var rows := RowsToSave(h.job, report, ending, now);
    ImportedOneEach(h, file);
    PendingAfterSaves(db, rows, ALWAYS, 0, cutoff);
    if Answered(report.results, fqdn) || !ending.ExecutionFailed? {
      RowOfTarget(h.job, report, ending, now, fqdn);
    }
    forall i | 0 <= i < |rows| && rows[i].result.fqdn == fqdn
      ensures rows[i].result.capturedAt
           == if Answered(report.results, fqdn) then report.results[IndexOf(report.results, fqdn)].capturedAt else now
    {
      OnlyRowOfTarget(h.job, report, ending, now, i);
    }
  }

  const BACK_DATED := Record("a", "https://a/", Timeout, 0, 0, None, None, None, None, None, None)

  /** A container that answers for one host, with a timestamp of its own choosing. */
  function BackDatingHost(): Host {
    Host(line => Some(BACK_DATED), [], _ => NoFile, _ => false, Job("job", ["a"], ["https"], None))
  }

  lemma BackDatedReport()
    ensures Imported(BackDatingHost(), Regular(1, "x")) == ImportReport([ToResult(BACK_DATED, [])], [])
  {
    var h := BackDatingHost();
    assert LineEnd("x") == 1 && SplitLines("x") == ["x"];
    assert !IsSpace("x"[0]) && !Blank("x");
    assert UrlFor("https", "a") == "https://a/" && UrlOk(h, BACK_DATED) by {
      assert CandidateUrls("a", ["https"]).value[0] == UrlFor("https", "a");
    }
    assert FirstValid(h, ["x"], 0);
    assert SpecReport(h, ["x"], 0) == ImportReport([], []);
  }

  /** Its accepted result leaves the host pending, whenever the run was. */
  lemma BackDatedStaysPending(db: Db, now: int, cutoff: int)
    requires Numbered(db) && "a" in PendingHosts(db, cutoff) && cutoff >= 0
    ensures var h := BackDatingHost();
            var rows := RowsToSave(h.job, Imported(h, Regular(1, "x")), Returned, now);
            "a" in PendingHosts(SaveRows(db, rows, ALWAYS, 0), cutoff)
  {
    BackDatedReport();
    StillPendingIff(db, BackDatingHost(), Regular(1, "x"), Returned, now, cutoff, "a");
  }

  lemma FlushesKeepPending(db: Db, threshold: real, flushes: seq<seq<Sighting>>, cutoff: int)
    requires Numbered(db)
    ensures var flushed := WriteBatches(db, threshold, flushes);
            Numbered(flushed) && PendingHosts(db, cutoff) <= PendingHosts(flushed, cutoff)
  {
    FlushesKeepAlerts(db, threshold, flushes);
    PendingAreAlerts(db, cutoff);
    PendingAreAlerts(WriteBatches(db, threshold, flushes), cutoff);
  }

  /** The same of a whole run, flushes and all: a host also stays pending if nothing can be saved. */
  lemma PendingAfterRunIff(db: Db, threshold: real, decode: string -> Option<Record>, config: CaptureConfig,
                           jobId: string, hosts: seq<string>, visit: Visit, flushes: seq<seq<Sighting>>, now: int,
                           cutoff: int, fqdn: string)
    requires Numbered(db) && fqdn in hosts && fqdn in PendingHosts(db, cutoff)
    ensures var h := HostFor(decode, config, JobFor(config, jobId, hosts), visit);
            var results := Imported(h, visit.file).results;
            var after := AfterRun(db, threshold, decode, config, jobId, hosts, visit, flushes, now, ALWAYS);
            fqdn in PendingHosts(after, cutoff) <==>
              || SavesNothing(h, config, visit.file)
              || if Answered(results, fqdn) then results[IndexOf(results, fqdn)].capturedAt <= cutoff
                 else visit.ending.ExecutionFailed? || now <= cutoff
  {
    var job := JobFor(config, jobId, hosts);
    var h := HostFor(decode, config, job, visit);
    FlushesKeepPending(db, threshold, flushes, cutoff);
    assert fqdn in Elements(hosts);
    if !SavesNothing(h, config, visit.file) {
      StillPendingIff(WriteBatches(db, threshold, flushes), h, visit.file, visit.ending, now, cutoff, fqdn);
    }
  }

  const HOSTILE_CONFIG := CaptureConfig([], ["https"], None, 2)

  lemma HostileJob()
    ensures JobFor(HOSTILE_CONFIG, "job", ["a", "b"]) == HostileHost().job
  {
    assert ["a", "b"][..1] == ["a"] && ["a"][..0] == [];
    assert FromKeys(["a"]) == ["a"];
    assert "b" != "a" by { assert "b"[0] != "a"[0]; }
    assert FromKeys(["a", "b"]) == ["a", "b"];
  }

  /** An import that raises costs the whole batch, whatever else the container answered. */
  lemma RaisingSavesNothing(db: Db, threshold: real, decode: string -> Option<Record>, config: CaptureConfig,
                            jobId: string, hosts: seq<string>, visit: Visit, now: int)
    requires ImportRaises(HostFor(decode, config, JobFor(config, jobId, hosts), visit), visit.file)
    ensures RunRaises(HostFor(decode, config, JobFor(config, jobId, hosts), visit), config, visit)
    ensures AfterRun(db, threshold, decode, config, jobId, hosts, visit, [], now, ALWAYS) == db
  {
  }

  /** So does the batch with the NUL among its lines: the good result is not saved, and both hosts stay pending. */
  lemma NulLeavesAllPending(db: Db, threshold: real, now: int, cutoff: int)
    requires {"a", "b"} <= PendingHosts(db, cutoff)
    ensures var host := HostileHost();
            var visit := Visit(HOSTILE_FILE, host.look, host.loops, Returned, true);
            var after := AfterRun(db, threshold, host.decode, HOSTILE_CONFIG, "job", ["a", "b"], visit, [], now,
                                  ALWAYS);
            && HostFor(host.decode, HOSTILE_CONFIG, JobFor(HOSTILE_CONFIG, "job", ["a", "b"]), visit) == host
            && RunRaises(host, HOSTILE_CONFIG, visit) && {"a", "b"} <= PendingHosts(after, cutoff)
  {
    var host := HostileHost();
    var visit := Visit(HOSTILE_FILE, host.look, host.loops, Returned, true);
    HostileJob();
    NulLosesBatch();
    RaisingSavesNothing(db, threshold, host.decode, HOSTILE_CONFIG, "job", ["a", "b"], visit, now);
  }

  lemma OnlyRowOfTarget(job: Job, report: ImportReport, ending: Ending, now: int, i: nat)
    requires AllowedSchemes(job.schemes) && job.schemes != [] && Distinct(job.targets)
    requires OneEach(job.targets, report.results)
    requires i < |RowsToSave(job, report, ending, now)|
    ensures var row, results := RowsToSave(job, report, ending, now)[i], report.results;
            row == if Answered(results, row.result.fqdn)
                   then CaptureRow(results[IndexOf(results, row.result.fqdn)], job.vantage)
                   else ErrorCapture(job, row.result.fqdn, now)
  {
    var rows := RowsToSave(job, report, ending, now);
    OneRowPerTarget(job, report, ending, now);
    assert rows[i] in rows;
    if k :| 0 <= k < |report.results| && rows[i] == CaptureRow(report.results[k], job.vantage) {
      OneIndex(job.targets, report.results, k);
    }
  }

  lemma OneIndex(targets: seq<string>, results: seq<CaptureResult>, k: nat)
    requires OneEach(targets, results) && k < |results|
    ensures Answered(results, results[k].fqdn) && IndexOf(results, results[k].fqdn) == k
  {
    assert Answered(results, results[k].fqdn);
    var j := IndexOf(results, results[k].fqdn);
    assert results[j].fqdn == results[k].fqdn;
  }

  lemma RowOfTarget(job: Job, report: ImportReport, ending: Ending, now: int, fqdn: string)
    requires AllowedSchemes(job.schemes) && job.schemes != [] && Distinct(job.targets)
    requires OneEach(job.targets, report.results)
    requires fqdn in job.targets && (Answered(report.results, fqdn) || !ending.ExecutionFailed?)
    ensures HasRow(RowsToSave(job, report, ending, now), fqdn)
  {
    if ending.ExecutionFailed? {
      AnsweredHasRow(job, report, now, fqdn);
    } else {
      TargetsHaveRows(job, report, ending, now);
      HostHasRow(RowsToSave(job, report, ending, now), job.targets, fqdn);
    }
  }

  ghost predicate HasRow(rows: seq<CaptureRow>, fqdn: string) {
    exists i :: 0 <= i < |rows| && rows[i].result.fqdn == fqdn
  }

  lemma AnsweredHasRow(job: Job, report: ImportReport, now: int, fqdn: string)
    requires AllowedSchemes(job.schemes) && job.schemes != [] && Answered(report.results, fqdn)
    ensures HasRow(RowsToSave(job, report, ExecutionFailed, now), fqdn)
  {
    FailedRows(job, report, now);
    assert ResultRows(job, report.results)[IndexOf(report.results, fqdn)].result.fqdn == fqdn;
  }

  lemma FailedRows(job: Job, report: ImportReport, now: int)
    requires AllowedSchemes(job.schemes) && job.schemes != []
    ensures RowsToSave(job, report, ExecutionFailed, now) == ResultRows(job, report.results)
  {
  }

  lemma TargetsHaveRows(job: Job, report: ImportReport, ending: Ending, now: int)
    requires AllowedSchemes(job.schemes) && job.schemes != [] && Distinct(job.targets)
    requires OneEach(job.targets, report.results) && !ending.ExecutionFailed?
    ensures Elements(HostsOf(RowsToSave(job, report, ending, now))) == Elements(job.targets)
  {
    OneRowPerTarget(job, report, ending, now);
  }

  lemma HostHasRow(rows: seq<CaptureRow>, targets: seq<string>, fqdn: string)
    requires Elements(HostsOf(rows)) == Elements(targets) && fqdn in targets
    ensures HasRow(rows, fqdn)
  {
    assert fqdn in Elements(HostsOf(rows));
    var i :| 0 <= i < |rows| && HostsOf(rows)[i] == fqdn;
  }

  /** Full runs, nothing else, and no capture growing old between them. */
  ghost predicate FullRuns(dbs: seq<Db>, config: CaptureConfig, limit: Option<nat>, cutoffs: seq<int>) {
    && |dbs| == |cutoffs| && dbs != [] && Numbered(dbs[0])
    && forall j :: 0 < j < |dbs| ==>
         && FullRun(dbs[j - 1], dbs[j], config, limit, cutoffs[j - 1])
         && PendingHosts(dbs[j], cutoffs[j]) == PendingHosts(dbs[j], cutoffs[j - 1])
  }

  lemma {:induction false} RunsStayNumbered(dbs: seq<Db>, config: CaptureConfig, limit: Option<nat>, cutoffs: seq<int>,
                                            j: nat)
    requires FullRuns(dbs, config, limit, cutoffs) && j < |dbs|
    ensures Numbered(dbs[j])
  {
    if j > 0 {
      RunsStayNumbered(dbs, config, limit, cutoffs, j - 1);
      FullRunTakesPage(dbs[j - 1], dbs[j], config, limit, cutoffs[j - 1]);
    }
  }

  function PendingAt(dbs: seq<Db>, cutoffs: seq<int>): (queues: seq<set<string>>)
    requires |dbs| == |cutoffs|
    ensures |queues| == |dbs| && forall j :: 0 <= j < |dbs| ==> queues[j] == PendingHosts(dbs[j], cutoffs[j])
  {
    seq(|dbs|, j requires 0 <= j < |dbs| => PendingHosts(dbs[j], cutoffs[j]))
  }

  /** The pending hosts are gone after exactly ceil(n / limit) full runs. */
  lemma CapturesDrain(dbs: seq<Db>, config: CaptureConfig, limit: Option<nat>, cutoffs: seq<int>, i: nat)
    requires FullRuns(dbs, config, limit, cutoffs) && i < |dbs| && PageSize(config, limit) > 0
    ensures PendingHosts(dbs[i], cutoffs[i]) == {} <==>
              i >= CeilDiv(|PendingHosts(dbs[0], cutoffs[0])|, PageSize(config, limit))
  {
    var queues := PendingAt(dbs, cutoffs);
    forall j | 0 < j < |queues|
      ensures Batch(queues[j - 1], queues[j], PageSize(config, limit))
    {
      RunsStayNumbered(dbs, config, limit, cutoffs, j - 1);
      FullRunTakesPage(dbs[j - 1], dbs[j], config, limit, cutoffs[j - 1]);
    }
    Drains(queues, PageSize(config, limit), i);
  }

  // ------------------------------------------------- fresh_feed_targets

  /** One entry of the feed file: a hostname and the day it was listed. */
  datatype FeedEntry = FeedEntry(fqdn: string, labelledAt: int)

  function ListedSince(entries: seq<FeedEntry>, oldest: int): seq<FeedEntry> {
    if entries == [] then [] else
      var last := entries[|entries| - 1];
      ListedSince(entries[..|entries| - 1], oldest) + if last.labelledAt >= oldest then [last] else []
  }

  /** Hostnames from the end of the file backwards. */
  function Backwards(entries: seq<FeedEntry>): seq<string> {
    if entries == [] then [] else [entries[|entries| - 1].fqdn] + Backwards(entries[..|entries| - 1])
  }

  function FeedTargets(captures: map<nat, CaptureRow>, entries: seq<FeedEntry>, oldest: int, never: int,
                       limit: int): seq<string> {
    if limit <= 0 then [] else
      var todo := FilterUncaptured(captures, FromKeys(Backwards(ListedSince(entries, oldest))), never);
      todo[..Min(|todo|, limit)]
  }

  /** `fresh_feed_targets`; `never` is a cutoff about a century back. */
  method FreshFeedTargets(store: MatchStore, entries: Option<seq<FeedEntry>>, limit: int, oldest: int, never: int)
    returns (targets: seq<string>)
    ensures targets == if entries.Some? then FeedTargets(store.captures, entries.value, oldest, never, limit) else []
  {
    if limit <= 0 || entries.None? {
      return [];
    }
    var sites: seq<FeedEntry> := [];
    for i := 0 to |entries.value|
      invariant sites == ListedSince(entries.value[..i], oldest)
    {
      assert entries.value[..i + 1][..i] == entries.value[..i];
      if entries.value[i].labelledAt >= oldest {
        sites := sites + [entries.value[i]];
      }
    }
    assert entries.value[..|entries.value|] == entries.value;
    var todo := store.Uncaptured(FromKeys(Backwards(sites)), never);
    targets := todo[..Min(|todo|, limit)];
  }

  lemma {:induction false} FilterExact(captures: map<nat, CaptureRow>, fqdns: seq<string>, cutoff: int)
    requires Distinct(fqdns)
    ensures var todo := FilterUncaptured(captures, fqdns, cutoff);
            Distinct(todo) && forall f :: f in todo <==> f in fqdns && !CapturedAfter(captures, f, cutoff)
  {
    if fqdns != [] {
      var front, last := fqdns[..|fqdns| - 1], fqdns[|fqdns| - 1];
      FilterExact(captures, front, cutoff);
      assert fqdns == front + [last] && last !in front;
    }
  }

  lemma {:induction false} BackwardsExact(entries: seq<FeedEntry>, f: string)
    ensures f in Backwards(entries) <==> exists e :: e in entries && e.fqdn == f
  {
    if entries != [] {
      BackwardsExact(entries[..|entries| - 1], f);
      assert entries == entries[..|entries| - 1] + [entries[|entries| - 1]];
    }
  }

  lemma {:induction false} ListedExact(entries: seq<FeedEntry>, oldest: int, e: FeedEntry)
    ensures e in ListedSince(entries, oldest) <==> e in entries && e.labelledAt >= oldest
  {
    if entries != [] {
      ListedExact(entries[..|entries| - 1], oldest, e);
      assert entries == entries[..|entries| - 1] + [entries[|entries| - 1]];
    }
  }

  ghost predicate ListedRecently(entries: seq<FeedEntry>, oldest: int, f: string) {
    exists e :: e in entries && e.fqdn == f && e.labelledAt >= oldest
  }

  lemma FeedNames(entries: seq<FeedEntry>, oldest: int, f: string)
    ensures f in FromKeys(Backwards(ListedSince(entries, oldest))) <==> ListedRecently(entries, oldest, f)
  {
    var recent := ListedSince(entries, oldest);
    BackwardsExact(recent, f);
    assert f in FromKeys(Backwards(recent)) <==> f in Elements(FromKeys(Backwards(recent)));
    forall e ensures e in recent <==> e in entries && e.labelledAt >= oldest {
      ListedExact(entries, oldest, e);
    }
  }

  /**
   * Feed targets are distinct, recently listed and never captured, and no such site is left out while there is room.
   */
  lemma FeedTargetsFresh(captures: map<nat, CaptureRow>, entries: seq<FeedEntry>, oldest: int, never: int, limit: int)
    ensures var targets := FeedTargets(captures, entries, oldest, never, limit);
            && Distinct(targets) && (limit > 0 ==> |targets| <= limit)
            && (forall f :: f in targets ==> !CapturedAfter(captures, f, never) && ListedRecently(entries, oldest, f))
            && (0 < limit && |targets| < limit ==>
                  forall f :: ListedRecently(entries, oldest, f) && !CapturedAfter(captures, f, never) ==> f in targets)
  {
    if limit > 0 {
      var names := FromKeys(Backwards(ListedSince(entries, oldest)));
      var todo, targets := FilterUncaptured(captures, names, never),
                           FeedTargets(captures, entries, oldest, never, limit);
      FilterExact(captures, names, never);
      forall f ensures f in names <==> ListedRecently(entries, oldest, f) {
        FeedNames(entries, oldest, f);
      }
      assert forall f :: f in targets ==> f in todo;
      assert |targets| < limit ==> targets == todo;
    }
  }
}
