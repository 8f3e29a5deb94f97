/** An honest container's results file is accepted whole, and is never too large (capture/handoff.py). */
module RoundTrip {
  import opened Wrappers
  import opened Text
  import opened Json
  import opened Captures
  import opened Hostnames
  import opened Handoff

  /** A visit the container's own code can report: everything the page controls is unrestricted. */
  ghost predicate Honest(h: Host, r: CaptureResult)
  {
    && r.fqdn in h.job.targets && |r.fqdn| <= MAX_FQDN_CHARS
    && AllowedSchemes(h.job.schemes) && r.url in CandidateUrls(r.fqdn, h.job.schemes).value && |r.url| <= MAX_URL_CHARS
    && 0 <= r.durationMs <= MAX_DURATION_MS
    && HonestPath(r.screenshot) && HonestPath(r.html)
    && (r.signals.Some? ==> CountableSignals(r.signals.value))
    && (r.status.Ok? ==>
          && r.screenshot.Some? && IsPng(h, h.root + r.screenshot.value)
          && Loopless(h, r.screenshot) && Loopless(h, r.html))
  }

  predicate HonestPath(p: Option<Path>) {
    p.Some? ==> p.value != [] && PlainPath(p.value) && |Posix(p.value)| <= MAX_PATH_CHARS
  }

  /** No loop of links stands in the way. */
  predicate Loopless(h: Host, p: Option<Path>) {
    p.Some? ==> !h.loops(Posix(p.value))
  }

  predicate IsPng(h: Host, file: Path) {
    h.look(file).Found? && h.look(file).file.size <= MAX_SCREENSHOT_BYTES && h.look(file).file.png
  }

  /** The visit as the database should hold it: page-controlled fields cut, paths only for a successful visit. */
  function Trimmed(r: CaptureResult): CaptureResult {
    var record := ToRecord(r);
    r.(finalUrl := record.finalUrl, httpStatus := record.httpStatus, signals := record.signals, error := record.error,
       screenshot := if r.status.Ok? then r.screenshot else None, html := if r.status.Ok? then r.html else None)
  }

  /** Parsing inverts printing. */
  ghost predicate ReadsBack(iso: int -> string, decode: string -> Option<Record>) {
    forall r: Record :: Countable(r) ==> decode(Line(iso, r)) == Some(r)
  }

  // ------------------------------------------------- a line says what was recorded

  ghost predicate TellsTimes(iso: int -> string) {
    forall t, u :: iso(t) == iso(u) ==> t == u
  }

  lemma StatusTextInjective(a: Status, b: Status)
    requires StatusText(a) == StatusText(b)
    ensures a == b
  {
    assert StatusText(a)[0] == StatusText(b)[0] && |StatusText(a)| == |StatusText(b)|;
  }

  lemma {:induction false} HostItemsInjective(a: seq<string>, b: seq<string>)
    requires HostItems(a) == HostItems(b)
    ensures a == b
  {
    if a != [] && b != [] {
      assert HostItems(a)[0] == Str(a[0]) && HostItems(b)[0] == Str(b[0]);
      assert HostItems(a)[1..] == HostItems(a[1..]) && HostItems(b)[1..] == HostItems(b[1..]);
      HostItemsInjective(a[1..], b[1..]);
      assert a == [a[0]] + a[1..] && b == [b[0]] + b[1..];
    } else {
      assert a == [] <==> HostItems(a) == [];
      assert b == [] <==> HostItems(b) == [];
    }
  }

  lemma SignalFieldsInjective(a: Signals, b: Signals)
    requires CountableSignals(a) && CountableSignals(b) && SignalFields(a) == SignalFields(b)
    ensures a == b
  {
    var x, y := SignalFields(a), SignalFields(b);
    assert forall i :: 0 <= i < 7 ==> x[i].value == y[i].value;
    assert x[0].value == TextJson(a.title) && y[0].value == TextJson(b.title);
    assert x[1].value == Num(a.formCount) && y[1].value == Num(b.formCount);
    assert x[2].value == Bool(a.hasPasswordInput) && y[2].value == Bool(b.hasPasswordInput);
    assert x[3].value == Bool(a.hasCredentialField) && y[3].value == Bool(b.hasCredentialField);
    assert x[4].value == Arr(HostItems(a.crossDomainFormTargets))
      && y[4].value == Arr(HostItems(b.crossDomainFormTargets));
    HostItemsInjective(a.crossDomainFormTargets, b.crossDomainFormTargets);
    assert x[5].value == Num(a.iframeCount) && y[5].value == Num(b.iframeCount);
    assert x[6].value == Num(a.passwordInputCount) && y[6].value == Num(b.passwordInputCount);
  }

  lemma IdentityFieldsInjective(iso: int -> string, a: Record, b: Record)
    requires TellsTimes(iso) && IdentityFields(iso, a) == IdentityFields(iso, b)
    ensures a.fqdn == b.fqdn && a.url == b.url && a.status == b.status && a.capturedAt == b.capturedAt
  {
    var x, y := IdentityFields(iso, a), IdentityFields(iso, b);
    assert forall i :: 0 <= i < 4 ==> x[i].value == y[i].value;
    StatusTextInjective(a.status, b.status);
  }

  lemma VisitFieldsInjective(a: Record, b: Record)
    requires Countable(a) && Countable(b) && VisitFields(a) == VisitFields(b)
    ensures a.durationMs == b.durationMs && a.finalUrl == b.finalUrl && a.httpStatus == b.httpStatus
    ensures a.screenshotPath == b.screenshotPath
  {
    var x, y := VisitFields(a), VisitFields(b);
    assert forall i :: 0 <= i < 4 ==> x[i].value == y[i].value;
  }

  lemma PageFieldsInjective(a: Record, b: Record)
    requires Countable(a) && Countable(b) && PageFields(a) == PageFields(b)
    ensures a.htmlPath == b.htmlPath && a.signals == b.signals && a.error == b.error
  {
    var x, y := PageFields(a), PageFields(b);
    assert forall i :: 0 <= i < 3 ==> x[i].value == y[i].value;
    if a.signals.Some? && b.signals.Some? { SignalFieldsInjective(a.signals.value, b.signals.value); }
  }

  lemma FieldsInParts(iso: int -> string, r: Record)
    requires Countable(r)
    ensures var all := RecordFields(iso, r);
            |all| == 11 && all[..4] == IdentityFields(iso, r) && all[4..8] == VisitFields(r)
              && all[8..] == PageFields(r)
  {
  }

  /** Different records make different lines, whatever the pages put in them. */
  lemma LineInjective(iso: int -> string, a: Record, b: Record)
    requires TellsTimes(iso) && Countable(a) && Countable(b) && Line(iso, a) == Line(iso, b)
    ensures a == b
  {
    PrintInjective(Obj(RecordFields(iso, a)), Obj(RecordFields(iso, b)));
    FieldsInParts(iso, a);
    FieldsInParts(iso, b);
    IdentityFieldsInjective(iso, a, b);
    VisitFieldsInjective(a, b);
    PageFieldsInjective(a, b);
  }

  ghost function ReadLine(iso: int -> string, line: string): Option<Record> {
    if exists r: Record :: Countable(r) && Line(iso, r) == line then
      var r: Record :| Countable(r) && Line(iso, r) == line;
      Some(r)
    else None
  }

  /** So there is a reader that inverts the writer. */
  lemma ReaderExists(iso: int -> string) returns (decode: string -> Option<Record>)
    requires TellsTimes(iso)
    ensures ReadsBack(iso, decode)
  {
    decode := line => ReadLine(iso, line);
    forall r: Record | Countable(r)
      ensures decode(Line(iso, r)) == Some(r)
    {
      LineInjective(iso, ReadLine(iso, Line(iso, r)).value, r);
    }
  }

  // ------------------------------------------------- what the host makes of a line

  lemma CutFits(s: Option<string>, limit: nat)
    ensures Within(Cut(s, limit), limit)
    ensures Within(s, limit) ==> Cut(s, limit) == s
  {
  }

  lemma BoundedSignalsFit(s: Option<Signals>)
    requires s.Some? && CountableSignals(s.value)
    ensures BoundedSignals(s).Some? && SignalsInBounds(BoundedSignals(s).value)
    ensures CountableSignals(BoundedSignals(s).value)
  {
    CutFits(s.value.title, MAX_TITLE_CHARS);
  }

  /** The trimming in the writer is exactly what the host's bounds ask for. */
  lemma RecordFits(h: Host, r: CaptureResult)
    requires Honest(h, r)
    ensures InBounds(ToRecord(r)) && Countable(ToRecord(r))
  {
    CutFits(r.finalUrl, MAX_URL_CHARS);
    CutFits(ErrorNote(r.httpStatus, r.error), MAX_ERROR_CHARS);
    if r.signals.Some? { BoundedSignalsFit(r.signals); }
  }

  lemma PathReturns(h: Host, p: Option<Path>)
    requires HonestPath(p)
    ensures Relative(PosixOption(p), h.root) == p
    ensures Unresolvable(PosixOption(p), h.loops) <==> !Loopless(h, p)
    ensures p.Some? ==> StoredCaptureFile(PosixOption(p), h.root) == Some(h.root + p.value)
  {
    if p.Some? {
      PosixRoundTrip(p.value, h.root);
      assert (h.root + p.value)[|h.root|..] == p.value;
    }
  }

  lemma ResultReturns(h: Host, r: CaptureResult)
    requires Honest(h, r)
    ensures ToResult(ToRecord(r), h.root) == Trimmed(r)
    ensures Refusal(h, ToRecord(r), {}).None?
  {
    PathReturns(h, r.screenshot);
    PathReturns(h, r.html);
  }

  /** What `ResultWriter.write` appends for each visit. */
  function LinesOf(iso: int -> string, results: seq<CaptureResult>): seq<string>
    requires forall k :: 0 <= k < |results| ==> Countable(ToRecord(results[k]))
  {
    seq(|results|, k requires 0 <= k < |results| => Line(iso, ToRecord(results[k])))
  }

  lemma LineIsValid(iso: int -> string, h: Host, r: CaptureResult)
    requires Honest(h, r) && ReadsBack(iso, h.decode)
    ensures Countable(ToRecord(r))
    ensures var l := Line(iso, ToRecord(r));
            Valid(h, l) && Parsed(h, l) == Some(ToRecord(r)) && BreakFree(l) && !Blank(l)
  {
    RecordFits(h, r);
    ObjectIsOneLine(RecordFields(iso, ToRecord(r)));
    ResultReturns(h, r);
  }

  ghost predicate HonestRun(h: Host, results: seq<CaptureResult>)
  {
    && (forall k :: 0 <= k < |results| ==> Honest(h, results[k]))
    && (forall j, k :: 0 <= j < k < |results| ==> results[j].fqdn != results[k].fqdn)
  }

  lemma AllLinesValid(iso: int -> string, h: Host, results: seq<CaptureResult>)
    requires HonestRun(h, results) && ReadsBack(iso, h.decode)
    ensures forall k :: 0 <= k < |results| ==> Countable(ToRecord(results[k]))
    ensures forall k :: 0 <= k < |results| ==>
              FirstValid(h, LinesOf(iso, results), k)
                && Parsed(h, LinesOf(iso, results)[k]) == Some(ToRecord(results[k]))
    ensures forall l :: l in LinesOf(iso, results) ==> BreakFree(l) && !Blank(l)
  {
    forall k | 0 <= k < |results|
      ensures Countable(ToRecord(results[k]))
      ensures var l := Line(iso, ToRecord(results[k]));
              Valid(h, l) && Parsed(h, l) == Some(ToRecord(results[k])) && BreakFree(l) && !Blank(l)
    {
      LineIsValid(iso, h, results[k]);
    }
  }

  function TrimmedAll(results: seq<CaptureResult>): (t: seq<CaptureResult>)
    ensures |t| == |results| && forall k :: 0 <= k < |t| ==> t[k] == Trimmed(results[k])
  {
    seq(|results|, k requires 0 <= k < |results| => Trimmed(results[k]))
  }

  /** The line is the first valid one for its host, and read as this result. */
  ghost predicate AcceptedAs(h: Host, lines: seq<string>, k: nat, r: CaptureResult)
    requires k < |lines|
  {
    FirstValid(h, lines, k) && ToResult(Parsed(h, lines[k]).value, h.root) == r
  }

  lemma HonestLine(iso: int -> string, h: Host, results: seq<CaptureResult>, k: nat)
    requires HonestRun(h, results) && ReadsBack(iso, h.decode) && k < |results|
    requires forall k :: 0 <= k < |results| ==> Countable(ToRecord(results[k]))
    ensures AcceptedAs(h, LinesOf(iso, results), k, TrimmedAll(results)[k])
  {
    AllLinesValid(iso, h, results);
    ResultReturns(h, results[k]);
  }

  lemma NextIsReported(h: Host, lines: seq<string>, i: nat, r: CaptureResult)
    requires i < |lines| && AcceptedAs(h, lines, i, r)
    ensures var before := SpecReport(h, lines, i);
            SpecReport(h, lines, i + 1) == before.(results := before.results + [r])
  {
  }

  /** Each line in turn adds its result to the report. */
  lemma {:induction false} ReportOfFirsts(h: Host, lines: seq<string>, expected: seq<CaptureResult>, n: nat)
    requires n <= |lines| == |expected| && forall k :: 0 <= k < |lines| ==> AcceptedAs(h, lines, k, expected[k])
    ensures SpecReport(h, lines, n) == ImportReport(expected[..n], [])
  {
    if n > 0 {
      ReportOfFirsts(h, lines, expected, n - 1);
      NextIsReported(h, lines, n - 1, expected[n - 1]);
      assert expected[..n] == expected[..n - 1] + [expected[n - 1]];
    }
  }

  lemma ReportOfHonestRun(iso: int -> string, h: Host, results: seq<CaptureResult>)
    requires HonestRun(h, results) && ReadsBack(iso, h.decode)
    requires forall k :: 0 <= k < |results| ==> Countable(ToRecord(results[k]))
    ensures SpecReport(h, LinesOf(iso, results), |results|) == ImportReport(TrimmedAll(results), [])
  {
    var expected := TrimmedAll(results);
    forall k | 0 <= k < |results| ensures AcceptedAs(h, LinesOf(iso, results), k, expected[k]) {
      HonestLine(iso, h, results, k);
    }
    ReportOfFirsts(h, LinesOf(iso, results), expected, |results|);
    assert expected[..|results|] == expected;
  }

  /** A file of first valid lines only: it is read without an exception, and the report is that of its lines. */
  lemma FileOfFirsts(h: Host, lines: seq<string>, size: nat)
    requires size <= MAX_RESULTS_BYTES && (forall l :: l in lines ==> BreakFree(l))
    requires forall k :: 0 <= k < |lines| ==> FirstValid(h, lines, k)
    ensures var file := Regular(size, Render(lines, "\n"));
            !ImportRaises(h, file) && Imported(h, file) == SpecReport(h, lines, |lines|)
  {
    SplitRendered(lines, "\n");
    forall k | 0 <= k < |lines| ensures !BreaksOff(h, lines, k) {
      assert FirstValid(h, lines, k);
    }
  }

  /**
   * The round trip: whatever the pages contain, reading what an honest container wrote does not raise, and
   * everything is accepted, in order, with no rejection, and comes back as the trimmed visit.
   */
  lemma HonestFileIsAccepted(iso: int -> string, h: Host, results: seq<CaptureResult>, size: nat)
    requires HonestRun(h, results) && ReadsBack(iso, h.decode)
    requires size <= MAX_RESULTS_BYTES
    ensures forall k :: 0 <= k < |results| ==> Countable(ToRecord(results[k]))
    ensures var file := Regular(size, Render(LinesOf(iso, results), "\n"));
            !ImportRaises(h, file) && Imported(h, file) == ImportReport(TrimmedAll(results), [])
  {
    AllLinesValid(iso, h, results);
    ReportOfHonestRun(iso, h, results);
    FileOfFirsts(h, LinesOf(iso, results), size);
  }

  lemma AppendLine(lines: seq<string>, i: nat)
    requires i < |lines|
    ensures Render(lines[..i + 1], "\n") == Render(lines[..i], "\n") + lines[i] + "\n"
  {
    assert lines[..i + 1] == lines[..i] + [lines[i]];
    RenderConcat(lines[..i], [lines[i]], "\n");
    assert [lines[i]][1..] == [];
    assert Render([lines[i]], "\n") == lines[i] + "\n";
  }

  /** Writing visits one after another produces exactly that file. */
  method WriteAll(iso: int -> string, results: seq<CaptureResult>) returns (writer: ResultWriter)
    requires forall k :: 0 <= k < |results| ==> Countable(ToRecord(results[k]))
    ensures fresh(writer) && writer.contents == Render(LinesOf(iso, results), "\n")
  {
    writer := new ResultWriter(iso);
    for i := 0 to |results|
      invariant fresh(writer) && writer.iso == iso
      invariant writer.contents == Render(LinesOf(iso, results)[..i], "\n")
    {
      AppendLine(LinesOf(iso, results), i);
      writer.Write(results[i]);
    }
    assert LinesOf(iso, results)[..|results|] == LinesOf(iso, results);
  }

  // ------------------------------------------------- size

  /** An upper bound on printed size: twelve characters for each one escaped. */
  function Cost(j: Json): nat
    decreases j, 0
  {
    match j
    case Null => 4
    case Bool(_) => 5
    case Num(n) => |Decimal(n)|
    case Str(s) => 12 * |s| + 2
    case Arr(items) => 2 + ItemsCost(items)
    case Obj(fields) => 2 + FieldsCost(fields)
  }

  function ItemsCost(items: seq<Json>): nat
    decreases items, 1
  {
    if items == [] then 0 else Cost(items[0]) + 2 + ItemsCost(items[1..])
  }

  function FieldsCost(fields: seq<Field>): nat
    decreases fields, 1
  {
    if fields == [] then 0 else FieldCost(fields[0]) + FieldsCost(fields[1..])
  }

  function FieldCost(f: Field): nat
    decreases f, 1
  {
    12 * |f.key| + Cost(f.value) + 6
  }

  lemma {:induction false} CostCovers(j: Json)
    ensures |Print(j)| <= Cost(j)
    decreases j, 0
  {
    match j
    case Null =>
    case Bool(_) =>
    case Num(_) =>
    case Str(s) => EscapeAllVisible(s);
    case Arr(items) => ItemsCostCovers(items);
    case Obj(fields) => FieldsCostCovers(fields);
  }

  lemma {:induction false} ItemsCostCovers(items: seq<Json>)
    ensures |PrintItems(items)| <= ItemsCost(items)
    decreases items, 1
  {
    if items != [] {
      CostCovers(items[0]);
      ItemsCostCovers(items[1..]);
    }
  }

  lemma {:induction false} FieldsCostCovers(fields: seq<Field>)
    ensures |PrintFields(fields)| <= FieldsCost(fields)
    decreases fields, 1
  {
    if fields != [] {
      EscapeAllVisible(fields[0].key);
      CostCovers(fields[0].value);
      FieldsCostCovers(fields[1..]);
    }
  }

  lemma {:induction false} FieldsCostConcat(a: seq<Field>, b: seq<Field>)
    ensures FieldsCost(a + b) == FieldsCost(a) + FieldsCost(b)
  {
    if a == [] {
      assert a + b == b;
    } else {
      assert (a + b)[1..] == a[1..] + b;
      FieldsCostConcat(a[1..], b);
    }
  }

  lemma Cost3(a: Field, b: Field, c: Field)
    ensures FieldsCost([a, b, c]) == FieldCost(a) + FieldCost(b) + FieldCost(c)
  {
    assert [a, b, c][1..] == [b, c] && [b, c][1..] == [c] && [c][1..] == [];
    assert FieldsCost([b, c]) == FieldCost(b) + FieldsCost([c]);
  }

  lemma Cost4(a: Field, b: Field, c: Field, d: Field)
    ensures FieldsCost([a, b, c, d]) == FieldCost(a) + FieldCost(b) + FieldCost(c) + FieldCost(d)
  {
    assert [a, b, c, d][1..] == [b, c, d];
    Cost3(b, c, d);
  }

  lemma {:induction false} HostItemsCost(hosts: seq<string>)
    requires forall i :: 0 <= i < |hosts| ==> |hosts[i]| <= MAX_HOST_CHARS
    ensures ItemsCost(HostItems(hosts)) <= |hosts| * 3040
  {
    if hosts != [] {
      assert HostItems(hosts)[1..] == HostItems(hosts[1..]);
      HostItemsCost(hosts[1..]);
    }
  }

  lemma {:induction false} DecimalLength(n: nat, digits: nat)
    requires digits > 0 && n < Power10(digits)
    ensures |Decimal(n)| <= digits
  {
    if n >= 10 { DecimalLength(n / 10, digits - 1); }
  }

  function Power10(d: nat): nat {
    if d == 0 then 1 else 10 * Power10(d - 1)
  }

  lemma SmallNumber(n: nat)
    requires n <= MAX_DURATION_MS
    ensures Cost(Num(n)) <= 8
  {
    assert Power10(8) == 10 * Power10(7) == 100 * Power10(6) == 1000 * Power10(5);
    assert Power10(5) == 10 * Power10(4) == 100 * Power10(3) == 1000 * Power10(2);
    assert Power10(2) == 100;
    DecimalLength(n, 8);
  }

  lemma SignalsCost(s: Signals)
    requires SignalsInBounds(s)
    ensures Cost(Obj(SignalFields(s))) <= 158_000
  {
    FieldsCostConcat(FirstSignals(s), LastSignals(s));
    FirstSignalsCost(s);
    LastSignalsCost(s);
  }

  function FirstSignals(s: Signals): seq<Field>
    requires CountableSignals(s)
  {
    [Field("title", TextJson(s.title)), Field("form_count", Num(s.formCount)),
     Field("has_password_input", Bool(s.hasPasswordInput)), Field("has_credential_field", Bool(s.hasCredentialField))]
  }

  function LastSignals(s: Signals): seq<Field>
    requires CountableSignals(s)
  {
    [Field("cross_domain_form_targets", Arr(HostItems(s.crossDomainFormTargets))),
     Field("iframe_count", Num(s.iframeCount)), Field("password_input_count", Num(s.passwordInputCount))]
  }

  lemma FirstSignalsCost(s: Signals)
    requires SignalsInBounds(s)
    ensures FieldsCost(FirstSignals(s)) <= 5_000
  {
    SmallNumber(s.formCount);
    var f := FirstSignals(s);
    Cost4(f[0], f[1], f[2], f[3]);
  }

  lemma LastSignalsCost(s: Signals)
    requires SignalsInBounds(s)
    ensures FieldsCost(LastSignals(s)) <= 152_990
  {
    SmallNumber(s.iframeCount);
    SmallNumber(s.passwordInputCount);
    HostItemsCost(s.crossDomainFormTargets);
    assert |s.crossDomainFormTargets| * 3040 <= 152_000;
    var f := LastSignals(s);
    Cost3(f[0], f[1], f[2]);
  }

  lemma IdentityCost(iso: int -> string, r: Record)
    requires InBounds(r) && |iso(r.capturedAt)| <= 40
    ensures FieldsCost(IdentityFields(iso, r)) <= 30_000
  {
    var f := IdentityFields(iso, r);
    assert f == [f[0], f[1], f[2], f[3]];
    Cost4(f[0], f[1], f[2], f[3]);
    assert |StatusText(r.status)| <= 16;
  }

  lemma VisitCost(r: Record)
    requires InBounds(r) && Countable(r)
    ensures FieldsCost(VisitFields(r)) <= 30_000
  {
    SmallNumber(r.durationMs);
    if r.httpStatus.Some? { SmallNumber(r.httpStatus.value); }
    var f := VisitFields(r);
    assert f == [f[0], f[1], f[2], f[3]];
    Cost4(f[0], f[1], f[2], f[3]);
  }

  lemma PageCost(r: Record)
    requires InBounds(r) && Countable(r)
    ensures FieldsCost(PageFields(r)) <= 187_000
  {
    if r.signals.Some? { SignalsCost(r.signals.value); }
    var f := PageFields(r);
    assert f == [f[0], f[1], f[2]];
    Cost3(f[0], f[1], f[2]);
  }

  lemma RecordCost(iso: int -> string, r: Record)
    requires InBounds(r) && Countable(r) && |iso(r.capturedAt)| <= 40
    ensures Cost(Obj(RecordFields(iso, r))) <= 249_000
  {
    FieldsCostConcat(IdentityFields(iso, r) + VisitFields(r), PageFields(r));
    FieldsCostConcat(IdentityFields(iso, r), VisitFields(r));
    IdentityCost(iso, r);
    VisitCost(r);
    PageCost(r);
  }

  lemma {:induction false} FileSize(iso: int -> string, lines: seq<string>)
    requires forall i :: 0 <= i < |lines| ==> |lines[i]| <= 249_000
    ensures |Render(lines, "\n")| <= |lines| * 249_001
  {
    if lines != [] { FileSize(iso, lines[1..]); }
  }

  const MAX_PER_RUN := 20

  /**
   * A default-sized honest run never trips the size check, whatever the pages contain: even with every
   * character escaped to twelve bytes. The text is ASCII, so characters are bytes.
   */
  lemma HonestFileFits(iso: int -> string, h: Host, results: seq<CaptureResult>)
    requires HonestRun(h, results) && |results| <= MAX_PER_RUN
    requires forall k :: 0 <= k < |results| ==> |iso(results[k].capturedAt)| <= 40
    ensures forall k :: 0 <= k < |results| ==> Countable(ToRecord(results[k]))
    ensures |Render(LinesOf(iso, results), "\n")| <= MAX_RESULTS_BYTES
    ensures forall k :: 0 <= k < |results| ==> Visible(LinesOf(iso, results)[k])
  {
    forall k | 0 <= k < |results|
      ensures Countable(ToRecord(results[k]))
      ensures |Line(iso, ToRecord(results[k]))| <= 249_000 && Visible(Line(iso, ToRecord(results[k])))
    {
      var r := ToRecord(results[k]);
      RecordFits(h, results[k]);
      RecordCost(iso, r);
      CostCovers(Obj(RecordFields(iso, r)));
      PrintVisible(Obj(RecordFields(iso, r)));
    }
    FileSize(iso, LinesOf(iso, results));
  }

  /**
   * The whole way: up to twenty visits to whatever pages, written by the container, are each accepted by the host and
   * come back trimmed. The file is ASCII, so its size in bytes is its length.
   */
  lemma HonestRunReturns(iso: int -> string, h: Host, results: seq<CaptureResult>)
    requires HonestRun(h, results) && |results| <= MAX_PER_RUN && ReadsBack(iso, h.decode)
    requires forall k :: 0 <= k < |results| ==> |iso(results[k].capturedAt)| <= 40
    ensures forall k :: 0 <= k < |results| ==> Countable(ToRecord(results[k]))
    ensures var text := Render(LinesOf(iso, results), "\n");
            && !ImportRaises(h, Regular(|text|, text))
            && Imported(h, Regular(|text|, text)) == ImportReport(TrimmedAll(results), [])
  {
    HonestFileFits(iso, h, results);
    HonestFileIsAccepted(iso, h, results, |Render(LinesOf(iso, results), "\n")|);
  }
}
