/** What the capture container writes, and what the host accepts of it (capture/handoff.py). */
module Handoff {
  import opened Wrappers
  import opened Text
  import opened Json
  import opened Captures
  import opened Hostnames

  const MAX_RESULTS_BYTES := 5_000_000
  const MAX_SCREENSHOT_BYTES := 30_000_000
  const MAX_URL_CHARS := 2100
  const MAX_TITLE_CHARS := 300
  const MAX_ERROR_CHARS := 2000
  const MAX_HOST_CHARS := 253
  const MAX_FORM_TARGETS := 50
  const MAX_ELEMENT_COUNT := 10_000
  const HTTP_STATUS_MIN := 100
  const HTTP_STATUS_MAX := 599
  const MAX_FQDN_CHARS := 300
  const MAX_PATH_CHARS := 300
  const MAX_DURATION_MS := 86_400_000

  datatype Job = Job(jobId: string, targets: seq<string>, schemes: seq<string>, vantage: Option<string>)

  /** One line's fields, typed but not yet bounded. */
  datatype Record = Record(fqdn: string, url: string, status: Status, capturedAt: int, durationMs: int,
                           finalUrl: Option<string>, httpStatus: Option<int>, screenshotPath: Option<string>,
                           htmlPath: Option<string>, signals: Option<Signals>, error: Option<string>)

  // ------------------------------------------------- container side

  function Cut(s: Option<string>, limit: nat): Option<string> {
    if s.Some? && |s.value| > limit then Some(s.value[..limit]) else s
  }

  function PosixOption(p: Option<Path>): Option<string> {
    if p.Some? then Some(Posix(p.value)) else None
  }

  function IntText(n: int): string {
    if n < 0 then "-" + Decimal(-n) else Decimal(n)
  }

  function CutHosts(hosts: seq<string>): (r: seq<string>)
    ensures |r| == |hosts|
    ensures forall i :: 0 <= i < |r| ==> r[i] == hosts[i][..Min(|hosts[i]|, MAX_HOST_CHARS)]
  {
    seq(|hosts|, i requires 0 <= i < |hosts| => hosts[i][..Min(|hosts[i]|, MAX_HOST_CHARS)])
  }

  /** `_bounded_signals`. */
  function BoundedSignals(s: Option<Signals>): Option<Signals> {
    if s.None? then None else
      var v := s.value;
      var targets := v.crossDomainFormTargets;
      Some(Signals(Cut(v.title, MAX_TITLE_CHARS), Min(v.formCount, MAX_ELEMENT_COUNT), v.hasPasswordInput,
                   v.hasCredentialField, CutHosts(targets[..Min(|targets|, MAX_FORM_TARGETS)]),
                   Min(v.iframeCount, MAX_ELEMENT_COUNT), Min(v.passwordInputCount, MAX_ELEMENT_COUNT)))
  }

  predicate StandardStatus(code: Option<int>) {
    code.None? || HTTP_STATUS_MIN <= code.value <= HTTP_STATUS_MAX
  }

  /** The error text: a status code no HTTP server sends is kept as a note in front of it. */
  function ErrorNote(code: Option<int>, error: Option<string>): Option<string> {
    if StandardStatus(code) then error
    else Some("non-standard HTTP status " + IntText(code.value)
              + if error.Some? && error.value != "" then "; " + error.value else "")
  }

  /** The record `ResultWriter.write` builds. */
  function ToRecord(r: CaptureResult): Record {
    Record(r.fqdn, r.url, r.status, r.capturedAt, r.durationMs, Cut(r.finalUrl, MAX_URL_CHARS),
           if StandardStatus(r.httpStatus) then r.httpStatus else None,
           PosixOption(r.screenshot), PosixOption(r.html), BoundedSignals(r.signals),
           Cut(ErrorNote(r.httpStatus, r.error), MAX_ERROR_CHARS))
  }

  function StatusText(s: Status): string {
    match s
    case Ok => "ok"
    case Timeout => "timeout"
    case DnsError => "dns_error"
    case ConnectionError => "connection_error"
    case Blocked => "blocked"
    case Error => "error"
  }

  function TextJson(s: Option<string>): Json {
    if s.Some? then Str(s.value) else Null
  }

  predicate Countable(r: Record) {
    && r.durationMs >= 0
    && (r.httpStatus.Some? ==> r.httpStatus.value >= 0)
    && (r.signals.Some? ==> CountableSignals(r.signals.value))
  }

  predicate CountableSignals(s: Signals) {
    s.formCount >= 0 && s.iframeCount >= 0 && s.passwordInputCount >= 0
  }

  function HostItems(hosts: seq<string>): seq<Json> {
    if hosts == [] then [] else [Str(hosts[0])] + HostItems(hosts[1..])
  }

  function SignalFields(s: Signals): seq<Field>
    requires CountableSignals(s)
  {
    [Field("title", TextJson(s.title)), Field("form_count", Num(s.formCount)),
     Field("has_password_input", Bool(s.hasPasswordInput)), Field("has_credential_field", Bool(s.hasCredentialField))]
    + [Field("cross_domain_form_targets", Arr(HostItems(s.crossDomainFormTargets))),
       Field("iframe_count", Num(s.iframeCount)), Field("password_input_count", Num(s.passwordInputCount))]
  }

  /** `iso` is `datetime.isoformat`. */
  function IdentityFields(iso: int -> string, r: Record): seq<Field> {
    [Field("fqdn", Str(r.fqdn)), Field("url", Str(r.url)), Field("status", Str(StatusText(r.status))),
     Field("captured_at", Str(iso(r.capturedAt)))]
  }

  function VisitFields(r: Record): seq<Field>
    requires Countable(r)
  {
    [Field("duration_ms", Num(r.durationMs)), Field("final_url", TextJson(r.finalUrl)),
     Field("http_status", if r.httpStatus.Some? then Num(r.httpStatus.value) else Null),
     Field("screenshot_path", TextJson(r.screenshotPath))]
  }

  function PageFields(r: Record): seq<Field>
    requires Countable(r)
  {
    [Field("html_path", TextJson(r.htmlPath)),
     Field("signals", if r.signals.Some? then Obj(SignalFields(r.signals.value)) else Null),
     Field("error", TextJson(r.error))]
  }

  function RecordFields(iso: int -> string, r: Record): seq<Field>
    requires Countable(r)
  {
    IdentityFields(iso, r) + VisitFields(r) + PageFields(r)
  }

  function Line(iso: int -> string, r: Record): string
    requires Countable(r)
  {
    Print(Obj(RecordFields(iso, r)))
  }

  /** The results file, one line per visit. */
  class ResultWriter {
    const iso: int -> string
    var contents: string

    constructor (iso: int -> string)
      ensures contents == "" && this.iso == iso
    {
      this.iso := iso;
      contents := "";
    }

    method Write(result: CaptureResult)
      requires Countable(ToRecord(result))
      modifies this
      ensures contents == old(contents) + Line(iso, ToRecord(result)) + "\n"
    {
      var error := ErrorNote(result.httpStatus, result.error);
      var httpStatus := result.httpStatus;
      if !StandardStatus(httpStatus) {
        httpStatus := None;
      }
      var record := Record(result.fqdn, result.url, result.status, result.capturedAt, result.durationMs,
                           Cut(result.finalUrl, MAX_URL_CHARS), httpStatus, PosixOption(result.screenshot),
                           PosixOption(result.html), BoundedSignals(result.signals), Cut(error, MAX_ERROR_CHARS));
      contents := contents + Line(iso, record) + "\n";
    }
  }

  // ------------------------------------------------- host side

  predicate Within(s: Option<string>, limit: nat) {
    s.Some? ==> |s.value| <= limit
  }

  /** `_SignalsRecord`'s bounds. */
  predicate SignalsInBounds(s: Signals) {
    && Within(s.title, MAX_TITLE_CHARS)
    && 0 <= s.formCount <= MAX_ELEMENT_COUNT
    && |s.crossDomainFormTargets| <= MAX_FORM_TARGETS
    && (forall i :: 0 <= i < |s.crossDomainFormTargets| ==> |s.crossDomainFormTargets[i]| <= MAX_HOST_CHARS)
    && 0 <= s.iframeCount <= MAX_ELEMENT_COUNT
    && 0 <= s.passwordInputCount <= MAX_ELEMENT_COUNT
  }

  /** `_ResultRecord`'s bounds. */
  predicate InBounds(r: Record) {
    && |r.fqdn| <= MAX_FQDN_CHARS && |r.url| <= MAX_URL_CHARS && 0 <= r.durationMs <= MAX_DURATION_MS
    && Within(r.finalUrl, MAX_URL_CHARS) && StandardStatus(r.httpStatus)
    && Within(r.screenshotPath, MAX_PATH_CHARS) && Within(r.htmlPath, MAX_PATH_CHARS)
    && (r.signals.Some? ==> SignalsInBounds(r.signals.value))
    && Within(r.error, MAX_ERROR_CHARS)
  }

  datatype File = File(size: nat, png: bool)

  /** What looking at a path comes to; it may be refused, for a name that is too long as for a mode that forbids it. */
  datatype Lookup = NoFile | Found(file: File) | Fails

  datatype ResultsFile = Missing | NotRegular | Unreadable | Regular(size: nat, text: string)

  /**
   * Everything the host knows while reading a results file: `decode` is JSON parsing into typed fields, `look` and
   * `loops` are the file system.
   */
  datatype Host = Host(decode: string -> Option<Record>, root: Path, look: Path -> Lookup, loops: Loops, job: Job)

  /** Why a line is refused; `Raises` is no refusal but an exception, which ends the import. */
  datatype Reason = InvalidFields | NotAsked | SecondResult | WrongUrl | BadScreenshot | Raises

  datatype Rejection = NotRegularFile | TooLarge | Refused(line: nat, reason: Reason)

  datatype ImportReport = ImportReport(results: seq<CaptureResult>, rejected: seq<Rejection>)

  /** `_screenshot` finds a PNG of a fair size inside the capture directory. */
  predicate ScreenshotOk(h: Host, stored: Option<string>) {
    var file := StoredCaptureFile(stored, h.root);
    && !Unresolvable(stored, h.loops) && file.Some? && h.look(file.value).Found?
    && h.look(file.value).file.size <= MAX_SCREENSHOT_BYTES && h.look(file.value).file.png
  }

  /** `_screenshot` raises: the path cannot be resolved, or the file it leads to cannot be looked at. */
  predicate ScreenshotFails(h: Host, stored: Option<string>) {
    || Unresolvable(stored, h.loops)
    || (StoredCaptureFile(stored, h.root).Some? && h.look(StoredCaptureFile(stored, h.root).value).Fails?)
  }

  predicate UrlOk(h: Host, r: Record) {
    AllowedSchemes(h.job.schemes) && r.url in CandidateUrls(r.fqdn, h.job.schemes).value
  }

  function Parsed(h: Host, line: string): Option<Record> {
    var r := h.decode(line);
    if r.Some? && InBounds(r.value) then r else None
  }

  /**
   * `_refusal`, then `_to_result`: why the record is not accepted. `candidate_urls` raises for an unsupported scheme,
   * the screenshot's path when it is looked at, and the page's path when it is resolved.
   */
  function Refusal(h: Host, r: Record, seen: set<string>): Option<Reason> {
    if r.fqdn !in h.job.targets then Some(NotAsked)
    else if r.fqdn in seen then Some(SecondResult)
    else if !AllowedSchemes(h.job.schemes) then Some(Raises)
    else if !UrlOk(h, r) then Some(WrongUrl)
    else if r.status.Ok? && ScreenshotFails(h, r.screenshotPath) then Some(Raises)
    else if r.status.Ok? && !ScreenshotOk(h, r.screenshotPath) then Some(BadScreenshot)
    else if r.status.Ok? && Unresolvable(r.htmlPath, h.loops) then Some(Raises)
    else None
  }

  /** `_relative`. */
  function Relative(stored: Option<string>, root: Path): Option<Path> {
    var file := StoredCaptureFile(stored, root);
    if file.Some? then Some(file.value[|root|..]) else None
  }

  function ToResult(r: Record, root: Path): CaptureResult {
    CaptureResult(r.fqdn, r.url, r.status, r.capturedAt, r.durationMs, r.finalUrl, r.httpStatus,
                  if r.status.Ok? then Relative(r.screenshotPath, root) else None,
                  if r.status.Ok? then Relative(r.htmlPath, root) else None,
                  r.signals, r.error)
  }

  // ------------------------------------------------- the specification: the first valid line for each host

  /** A line acceptable on its own merits, whatever else the file holds. */
  predicate Valid(h: Host, line: string) {
    !Blank(line) && Parsed(h, line).Some? && Refusal(h, Parsed(h, line).value, {}).None?
  }

  function HostOf(h: Host, line: string): string
    requires Parsed(h, line).Some?
  {
    Parsed(h, line).value.fqdn
  }

  predicate AnsweredBefore(h: Host, lines: seq<string>, i: nat, host: string)
    requires i <= |lines|
  {
    exists j | 0 <= j < i :: Valid(h, lines[j]) && HostOf(h, lines[j]) == host
  }

  predicate FirstValid(h: Host, lines: seq<string>, i: nat)
    requires i < |lines|
  {
    Valid(h, lines[i]) && !AnsweredBefore(h, lines, i, HostOf(h, lines[i]))
  }

  /** Why a non-blank line is refused. */
  function WhyRefused(h: Host, lines: seq<string>, i: nat): Reason
    requires i < |lines| && !Blank(lines[i]) && !FirstValid(h, lines, i)
  {
    var r := Parsed(h, lines[i]);
    if r.None? then InvalidFields
    else if r.value.fqdn in h.job.targets && AnsweredBefore(h, lines, i, r.value.fqdn) then SecondResult
    else Refusal(h, r.value, {}).value
  }

  /** The report owed for the first `n` lines. */
  function SpecReport(h: Host, lines: seq<string>, n: nat): ImportReport
    requires n <= |lines|
  {
    if n == 0 then ImportReport([], []) else
      var before := SpecReport(h, lines, n - 1);
      if Blank(lines[n - 1]) then before
      else if FirstValid(h, lines, n - 1) then
        before.(results := before.results + [ToResult(Parsed(h, lines[n - 1]).value, h.root)])
      else before.(rejected := before.rejected + [Refused(n, WhyRefused(h, lines, n - 1))])
  }

  /** The hosts answered by the first `n` lines. */
  ghost predicate SeenIs(h: Host, lines: seq<string>, n: nat, seen: set<string>)
    requires n <= |lines|
  {
    forall host :: host in seen <==> AnsweredBefore(h, lines, n, host)
  }

  lemma RefusalWithSeen(h: Host, lines: seq<string>, i: nat, seen: set<string>)
    requires i < |lines| && SeenIs(h, lines, i, seen)
    requires !Blank(lines[i]) && Parsed(h, lines[i]).Some?
    ensures Refusal(h, Parsed(h, lines[i]).value, seen).None? <==> FirstValid(h, lines, i)
    ensures !FirstValid(h, lines, i) ==> Refusal(h, Parsed(h, lines[i]).value, seen) == Some(WhyRefused(h, lines, i))
  {
  }

  lemma SeenStep(h: Host, lines: seq<string>, i: nat, seen: set<string>)
    requires i < |lines| && SeenIs(h, lines, i, seen)
    ensures SeenIs(h, lines, i + 1, if FirstValid(h, lines, i) then seen + {HostOf(h, lines[i])} else seen)
  {
    forall host
      ensures AnsweredBefore(h, lines, i + 1, host) <==>
                AnsweredBefore(h, lines, i, host) || (Valid(h, lines[i]) && HostOf(h, lines[i]) == host)
    {
    }
  }

  /**
   * What the host has no answer to: a job with an unsupported scheme, or at a good URL an ok visit whose screenshot's
   * path cannot be resolved or looked up, or whose screenshot is good and page's path cannot be resolved.
   */
  predicate Raising(h: Host, r: Record) {
    || !AllowedSchemes(h.job.schemes)
    || (&& UrlOk(h, r) && r.status.Ok?
        && (ScreenshotFails(h, r.screenshotPath)
            || (ScreenshotOk(h, r.screenshotPath) && Unresolvable(r.htmlPath, h.loops))))
  }

  /** The line ends the import: it is about a target that has no result yet, and there is no answer to it. */
  predicate BreaksOff(h: Host, lines: seq<string>, i: nat)
    requires i < |lines|
  {
    && !Blank(lines[i]) && Parsed(h, lines[i]).Some?
    && HostOf(h, lines[i]) in h.job.targets && !AnsweredBefore(h, lines, i, HostOf(h, lines[i]))
    && Raising(h, Parsed(h, lines[i]).value)
  }

  predicate ImportRaises(h: Host, file: ResultsFile) {
    || file.Unreadable?
    || (&& file.Regular? && file.size <= MAX_RESULTS_BYTES
        && exists i | 0 <= i < |SplitLines(file.text)| :: BreaksOff(h, SplitLines(file.text), i))
  }

  lemma RaisesWithSeen(h: Host, lines: seq<string>, i: nat, seen: set<string>)
    requires i < |lines| && SeenIs(h, lines, i, seen) && !Blank(lines[i]) && Parsed(h, lines[i]).Some?
    ensures Refusal(h, Parsed(h, lines[i]).value, seen) == Some(Raises) <==> BreaksOff(h, lines, i)
  {
  }

  /** The body of the loop over lines. */
  method ImportLine(h: Host, lines: seq<string>, i: nat, report0: ImportReport, seen0: set<string>)
    returns (report: ImportReport, seen: set<string>, raised: bool)
    requires i < |lines| && SeenIs(h, lines, i, seen0) && report0 == SpecReport(h, lines, i)
    ensures raised <==> BreaksOff(h, lines, i)
    ensures !raised ==> SeenIs(h, lines, i + 1, seen) && report == SpecReport(h, lines, i + 1)
  {
    report, seen, raised := report0, seen0, false;
    SeenStep(h, lines, i, seen);
    if !Blank(lines[i]) {
      var record := Parsed(h, lines[i]);
      if record.None? {
        report := report.(rejected := report.rejected + [Refused(i + 1, InvalidFields)]);
      } else {
        RefusalWithSeen(h, lines, i, seen);
        RaisesWithSeen(h, lines, i, seen);
        var reason := Refusal(h, record.value, seen);
        if reason == Some(Raises) {
          raised := true;
        } else if reason.Some? {
          report := report.(rejected := report.rejected + [Refused(i + 1, reason.value)]);
        } else {
          seen := seen + {record.value.fqdn};
          report := report.(results := report.results + [ToResult(record.value, h.root)]);
        }
      }
    }
  }

  /** `import_results`: whatever the container wrote, exactly the specified report, or an exception. */
  method ImportResults(h: Host, file: ResultsFile) returns (report: ImportReport, raised: bool)
    ensures raised <==> ImportRaises(h, file)
    ensures !raised ==> report == Imported(h, file)
  {
    report, raised := ImportReport([], []), false;
    if file.Missing? {
      return;
    }
    if file.Unreadable? {
      raised := true;
      return;
    }
    if file.NotRegular? {
      return ImportReport([], [NotRegularFile]), false;
    }
    if file.size > MAX_RESULTS_BYTES {
      return ImportReport([], [TooLarge]), false;
    }
    var seen: set<string> := {};
    var lines := SplitLines(file.text);
    for i := 0 to |lines|
      invariant SeenIs(h, lines, i, seen)
      invariant report == SpecReport(h, lines, i)
      invariant forall j :: 0 <= j < i ==> !BreaksOff(h, lines, j)
    {
      report, seen, raised := ImportLine(h, lines, i, report, seen);
      if raised {
        return;
      }
    }
  }

  /** The report, where there is one. */
  function Imported(h: Host, file: ResultsFile): ImportReport {
    match file
    case Missing => ImportReport([], [])
    case NotRegular => ImportReport([], [NotRegularFile])
    case Unreadable => ImportReport([], [])
    case Regular(size, text) =>
      if size > MAX_RESULTS_BYTES then ImportReport([], [TooLarge])
      else SpecReport(h, SplitLines(text), |SplitLines(text)|)
  }

  function NonBlank(lines: seq<string>, n: nat): nat
    requires n <= |lines|
  {
    if n == 0 then 0 else NonBlank(lines, n - 1) + if Blank(lines[n - 1]) then 0 else 1
  }

  /** Every non-blank line is accepted or refused, never both, never dropped. */
  lemma {:induction false} EveryLineAccounted(h: Host, lines: seq<string>, n: nat)
    requires n <= |lines|
    ensures var r := SpecReport(h, lines, n); |r.results| + |r.rejected| == NonBlank(lines, n)
  {
    if n > 0 { EveryLineAccounted(h, lines, n - 1); }
  }

  /** Each accepted result comes from the first valid line of a requested host. */
  lemma {:induction false} ResultsAreFirsts(h: Host, lines: seq<string>, n: nat, k: nat) returns (i: nat)
    requires n <= |lines| && k < |SpecReport(h, lines, n).results|
    ensures i < n && FirstValid(h, lines, i)
    ensures SpecReport(h, lines, n).results[k] == ToResult(Parsed(h, lines[i]).value, h.root)
    ensures HostOf(h, lines[i]) in h.job.targets
    ensures |SpecReport(h, lines, i).results| == k
  {
    if k < |SpecReport(h, lines, n - 1).results| {
      i := ResultsAreFirsts(h, lines, n - 1, k);
    } else {
      i := n - 1;
    }
  }

  /** And each first valid line is accepted: no earlier invalid line gets in its way. */
  lemma {:induction false} FirstsAreAccepted(h: Host, lines: seq<string>, n: nat, i: nat)
    requires i < n <= |lines| && FirstValid(h, lines, i)
    ensures ToResult(Parsed(h, lines[i]).value, h.root) in SpecReport(h, lines, n).results
  {
    if i < n - 1 { FirstsAreAccepted(h, lines, n - 1, i); }
  }

  /** One result per host, each for a target. */
  ghost predicate OneEach(targets: seq<string>, results: seq<CaptureResult>) {
    && (forall j, k :: 0 <= j < k < |results| ==> results[j].fqdn != results[k].fqdn)
    && (forall k :: 0 <= k < |results| ==> results[k].fqdn in targets)
  }

  /** Results are for distinct hosts, and a host is answered exactly when some line is valid for it. */
  lemma OneResultPerHost(h: Host, lines: seq<string>)
    ensures var r := SpecReport(h, lines, |lines|).results;
            && OneEach(h.job.targets, r)
            && forall host :: AnsweredBefore(h, lines, |lines|, host) <==> exists k :: 0 <= k < |r| && r[k].fqdn == host
  {
    var n := |lines|;
    var r := SpecReport(h, lines, n).results;
    forall j, k | 0 <= j < k < |r|
      ensures r[j].fqdn != r[k].fqdn
    {
      var a := ResultsAreFirsts(h, lines, n, j);
      var b := ResultsAreFirsts(h, lines, n, k);
      if b <= a { ResultsGrow(h, lines, b, a); }
      assert Valid(h, lines[a]);
    }
    forall k | 0 <= k < |r|
      ensures r[k].fqdn in h.job.targets && AnsweredBefore(h, lines, n, r[k].fqdn)
    {
      var a := ResultsAreFirsts(h, lines, n, k);
    }
    forall host | AnsweredBefore(h, lines, n, host)
      ensures exists k :: 0 <= k < |r| && r[k].fqdn == host
    {
      var j :| 0 <= j < n && Valid(h, lines[j]) && HostOf(h, lines[j]) == host;
      var i := EarliestValid(h, lines, j);
      FirstsAreAccepted(h, lines, n, i);
    }
  }

  lemma {:induction false} ResultsGrow(h: Host, lines: seq<string>, m: nat, n: nat)
    requires m <= n <= |lines|
    ensures |SpecReport(h, lines, m).results| <= |SpecReport(h, lines, n).results|
  {
    if m < n { ResultsGrow(h, lines, m, n - 1); }
  }

  lemma {:induction false} EarliestValid(h: Host, lines: seq<string>, j: nat) returns (i: nat)
    requires j < |lines| && Valid(h, lines[j])
    ensures i <= j && FirstValid(h, lines, i) && HostOf(h, lines[i]) == HostOf(h, lines[j])
    decreases j
  {
    if FirstValid(h, lines, j) {
      i := j;
    } else {
      var k :| 0 <= k < j && Valid(h, lines[k]) && HostOf(h, lines[k]) == HostOf(h, lines[j]);
      i := EarliestValid(h, lines, k);
    }
  }

  /** What acceptance guarantees about a result, however hostile the container. */
  lemma AcceptedIsSound(h: Host, lines: seq<string>, n: nat, k: nat)
    requires n <= |lines| && k < |SpecReport(h, lines, n).results| && PlainPath(h.root)
    ensures var r := SpecReport(h, lines, n).results[k];
            && r.fqdn in h.job.targets
            && AllowedSchemes(h.job.schemes) && r.url in CandidateUrls(r.fqdn, h.job.schemes).value
            && (r.status.Ok? ==> r.screenshot.Some? && PlainPath(r.screenshot.value)
                                 && h.look(h.root + r.screenshot.value).Found?
                                 && h.look(h.root + r.screenshot.value).file.png)
            && (!r.status.Ok? ==> r.screenshot.None? && r.html.None?)
            && (r.html.Some? ==> PlainPath(r.html.value))
  {
    var i := ResultsAreFirsts(h, lines, n, k);
    var record := Parsed(h, lines[i]).value;
    if record.status.Ok? {
      StoredFileIsInside(record.screenshotPath, h.root, h.loops);
      if StoredCaptureFile(record.htmlPath, h.root).Some? { StoredFileIsInside(record.htmlPath, h.root, h.loops); }
      var file := StoredCaptureFile(record.screenshotPath, h.root).value;
      assert h.root + file[|h.root|..] == file;
    }
  }

  // ------------------------------------------------- what ends an import

  predicate IsRaise(r: Rejection) {
    r.Refused? && r.reason.Raises?
  }

  ghost predicate NamesRaise(rejected: seq<Rejection>) {
    exists k :: 0 <= k < |rejected| && IsRaise(rejected[k])
  }

  lemma OneMoreRejection(rejected: seq<Rejection>, r: Rejection)
    ensures NamesRaise(rejected + [r]) <==> NamesRaise(rejected) || IsRaise(r)
  {
    var after := rejected + [r];
    assert after[|rejected|] == r && forall k :: 0 <= k < |rejected| ==> after[k] == rejected[k];
  }

  lemma WhyRaises(h: Host, lines: seq<string>, i: nat)
    requires i < |lines|
    ensures BreaksOff(h, lines, i) ==> !Blank(lines[i]) && !FirstValid(h, lines, i)
    ensures !Blank(lines[i]) && !FirstValid(h, lines, i) ==>
              (WhyRefused(h, lines, i).Raises? <==> BreaksOff(h, lines, i))
  {
  }

  /** The specified report gives an exception as a reason exactly when some line breaks off the import ... */
  lemma {:induction false} RaisesIffBreaksOff(h: Host, lines: seq<string>, n: nat)
    requires n <= |lines|
    ensures NamesRaise(SpecReport(h, lines, n).rejected) <==> exists i | 0 <= i < n :: BreaksOff(h, lines, i)
  {
    if n > 0 {
      RaisesIffBreaksOff(h, lines, n - 1);
      WhyRaises(h, lines, n - 1);
      if !Blank(lines[n - 1]) && !FirstValid(h, lines, n - 1) {
        OneMoreRejection(SpecReport(h, lines, n - 1).rejected, Refused(n, WhyRefused(h, lines, n - 1)));
      }
    }
  }

  /** ... so one that is returned gives none. */
  lemma ReportNamesNoRaise(h: Host, file: ResultsFile)
    requires !ImportRaises(h, file)
    ensures !NamesRaise(Imported(h, file).rejected)
  {
    if file.Regular? && file.size <= MAX_RESULTS_BYTES {
      RaisesIffBreaksOff(h, SplitLines(file.text), |SplitLines(file.text)|);
    }
  }

  const NAME_MAX := 255

  /** The file system refuses to look up a name that is too long, here one directly below the capture directory. */
  ghost predicate NamesAreShort(h: Host) {
    forall name: string :: |name| > NAME_MAX ==> h.look(h.root + [name]).Fails?
  }

  /**
   * A screenshot path the host is no match for: it holds a NUL, or it is one name that is too long. The length bound on
   * the field lets both through.
   */
  predicate Hostile(stored: string) {
    NUL in stored || (PlainPath([stored]) && |stored| > NAME_MAX)
  }

  /** A successful visit with such a path ends the import, wherever the container puts it. */
  lemma HostilePathRaises(h: Host, r: Record, seen: set<string>)
    requires NamesAreShort(h) && r.fqdn in h.job.targets && r.fqdn !in seen && UrlOk(h, r) && r.status.Ok?
    requires r.screenshotPath.Some? && Hostile(r.screenshotPath.value)
    ensures Refusal(h, r, seen) == Some(Raises)
  {
    var stored := r.screenshotPath.value;
    if NUL in stored {
      assert stored != "";
    } else {
      assert Posix([stored]) == stored;
      PosixRoundTrip([stored], h.root);
    }
  }

  const GOOD_LINE := Record("b", "https://b/", Timeout, 0, 0, None, None, None, None, None, None)
  const NUL_LINE := Record("a", "https://a/", Ok, 0, 0, None, None, Some([NUL]), None, None, None)

  /** A container that answers well for one host and names a NUL as the screenshot of another. */
  function HostileHost(): Host {
    Host(line => if line == "x" then Some(GOOD_LINE) else Some(NUL_LINE), [], _ => NoFile, _ => false,
         Job("job", ["a", "b"], ["https"], None))
  }

  const HOSTILE_FILE := Regular(4, Render(["x", "y"], "\n"))

  lemma HostileLines()
    ensures SplitLines(Render(["x", "y"], "\n")) == ["x", "y"] && !Blank("x") && !Blank("y")
  {
    assert !IsSpace("x"[0]) && !IsSpace("y"[0]);
    SplitRendered(["x", "y"], "\n");
  }

  lemma HostileRefusals()
    ensures var h := HostileHost();
            Refusal(h, GOOD_LINE, {}).None? && Refusal(h, NUL_LINE, {}) == Some(Raises)
  {
    var h := HostileHost();
    assert UrlFor("https", "a") == "https://a/" && UrlFor("https", "b") == "https://b/";
    assert UrlOk(h, NUL_LINE) by { assert CandidateUrls("a", ["https"]).value[0] == UrlFor("https", "a"); }
    assert UrlOk(h, GOOD_LINE) by { assert CandidateUrls("b", ["https"]).value[0] == UrlFor("https", "b"); }
    assert "a" in h.job.targets && "b" in h.job.targets;
    assert NUL in [NUL] && [NUL] != "";
  }

  lemma HostileLinesRead(lines: seq<string>)
    requires lines == ["x", "y"] && !Blank("x") && !Blank("y")
    ensures FirstValid(HostileHost(), lines, 0) && BreaksOff(HostileHost(), lines, 1)
  {
    var h := HostileHost();
    HostileRefusals();
    assert "y" != "x" by { assert "y"[0] != "x"[0]; }
    assert Parsed(h, "x") == Some(GOOD_LINE) && Parsed(h, "y") == Some(NUL_LINE);
  }

  lemma BreakEndsImport(h: Host, size: nat, text: string, i: nat)
    requires size <= MAX_RESULTS_BYTES && i < |SplitLines(text)| && BreaksOff(h, SplitLines(text), i)
    ensures ImportRaises(h, Regular(size, text))
  {
  }

  /** The line of the first host is good, within all bounds as the other is, and the other ends the import. */
  lemma NulLosesBatch()
    ensures InBounds(GOOD_LINE) && InBounds(NUL_LINE)
    ensures var h, lines := HostileHost(), SplitLines(HOSTILE_FILE.text);
            lines == ["x", "y"] && FirstValid(h, lines, 0) && BreaksOff(h, lines, 1)
    ensures ImportRaises(HostileHost(), HOSTILE_FILE)
  {
    HostileLines();
    HostileLinesRead(SplitLines(HOSTILE_FILE.text));
    BreakEndsImport(HostileHost(), 4, HOSTILE_FILE.text, 1);
  }
}
