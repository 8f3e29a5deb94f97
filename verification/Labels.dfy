/** Analyst labels written into the evaluation files (eval/feedback.py), as an editor of text. */
module Labels {
  import opened Wrappers
  import opened Text
  import opened Json
  import opened Hostnames

  /** The keys of a line's JSON object. */
  datatype FieldName =
    | Fqdn | Expected | LabelledBy | LabelledAt | LabelBasis | Note | Suggestion | BrandName | Source
    | Other(name: string)

  type Payload = map<FieldName, Json>

  datatype ExistingLabel = ExistingLabel(expected: Json, labelledBy: Json, labelledAt: Json)

  /** How lines are read and written; `FileFormat` is the real one. */
  datatype Format = Format(skips: string -> bool, entry: string -> Option<Payload>, site: Json -> string,
                           dump: Payload -> string,
                           text: Json -> string, header: seq<string>, was: ExistingLabel -> string)

  const HUMAN := "human"
  const REVIEWABLE_LABELS: set<string> := {"phishing", "parked", "legitimate", "unknown"}

  /** What the analyst decided about a site. */
  datatype Decision = Decision(judged: string, brand: Option<string>, suggestion: Option<string>, stamp: string)

  function Norm(s: string): string {
    Lower(Strip(s))
  }

  /** `payload.get(key)`: a missing key reads like null. */
  function Get(p: Payload, key: FieldName): Json {
    if key in p then p[key] else Null
  }

  function Existing(p: Payload): ExistingLabel {
    ExistingLabel(Get(p, Expected), Get(p, LabelledBy), Get(p, LabelledAt))
  }

  /** What is true in Python. */
  predicate Truthy(j: Json) {
    match j
    case Null => false
    case Bool(b) => b
    case Num(n) => n != 0
    case Str(s) => s != ""
    case Arr(items) => items != []
    case Obj(fields) => fields != []
  }

  function JsonOf(s: Option<string>): Json {
    if s.Some? then Str(s.value) else Null
  }

  // ------------------------------------------------- the format of the files

  /** Order of keys, by code point. */
  predicate Before(a: string, b: string) {
    if b == "" then false
    else if a == "" then true
    else if a[0] == b[0] then Before(a[1..], b[1..])
    else a[0] < b[0]
  }

  /** A value as dictionaries compare: no key twice in an object, and their order not shown. */
  predicate Settled(j: Json) {
    match j
    case Arr(items) => forall i | 0 <= i < |items| :: Settled(items[i])
    case Obj(fields) =>
      && (forall i | 0 <= i < |fields| :: Settled(fields[i].value))
      && (forall i | 0 < i < |fields| :: Before(fields[i - 1].key, fields[i].key))
    case _ => true
  }

  /** The names of the keys the code itself mentions. */
  const RESERVED := {"fqdn", "expected", "labelled_by", "labelled_at", "label_basis", "note", "suggestion", "brand",
                     "source"}

  /** What a line can say: every key under one name, and settled values. */
  ghost predicate Readable(p: Payload) {
    forall key :: key in p ==> Settled(p[key]) && (key.Other? ==> key.name !in RESERVED)
  }

  /** JSON reading, into settled values, and writing with sorted keys; and `str` of a value. */
  datatype Codec = Codec(parse: string -> Option<Payload>, dump: Payload -> string, text: Json -> string)

  /** A dumped object is one line starting with a brace, and reads back as itself. */
  ghost predicate Faithful(codec: Codec) {
    && (forall p: Payload :: Fqdn in p && Readable(p) ==> codec.parse(codec.dump(p)) == Some(p))
    && (forall p: Payload :: BreakFree(codec.dump(p)) && codec.dump(p) != "" && codec.dump(p)[0] == '{')
    && (forall line :: codec.parse(line).Some? ==> Fqdn in codec.parse(line).value && Readable(codec.parse(line).value))
    && (forall s :: codec.text(Str(s)) == s)
  }

  const HEADER_START := "# Candidate sites for evaluation. " + "Set \"expected\" on every line;"
  const HEADER_END := "# see docs/labelling-protocol.md. " + "Unlabelled entries are refused."
  const HEADER := [HEADER_START, HEADER_END]

  /** Blank lines and comments. */
  predicate Skips(line: string) {
    Blank(line) || (LStrip(line) != "" && LStrip(line)[0] == '#')
  }

  /** `_entry`: what a line says, unless it is skipped, or no object with a hostname. */
  function EntryOf(codec: Codec, line: string): Option<Payload> {
    if Skips(line) then None else codec.parse(line)
  }

  function SiteOf(codec: Codec, fqdn: Json): string {
    Norm(codec.text(fqdn))
  }

  function Was(codec: Codec, previous: ExistingLabel): string {
    "relabelled by a human; was " + codec.text(previous.expected) + " ("
    + (if Truthy(previous.labelledBy) then codec.text(previous.labelledBy) else "?") + ")"
  }

  function FileFormat(codec: Codec): Format {
    Format(Skips, line => EntryOf(codec, line), fqdn => SiteOf(codec, fqdn), codec.dump, codec.text, HEADER,
           previous => Was(codec, previous))
  }

  /** What the editor relies on. */
  ghost predicate Good(f: Format) {
    && (forall p: Payload {:trigger f.dump(p)} :: Fqdn in p && Readable(p) ==> f.entry(f.dump(p)) == Some(p))
    && (forall p: Payload {:trigger f.dump(p)} :: BreakFree(f.dump(p)))
    && (forall line {:trigger f.entry(line)} :: f.skips(line) ==> f.entry(line).None?)
    && (forall line {:trigger f.entry(line)} :: f.entry(line).Some? ==>
          Fqdn in f.entry(line).value && Readable(f.entry(line).value))
    && (forall s {:trigger f.site(Str(s))} :: f.site(Str(s)) == Norm(s))
    && |f.header| == 2 && (forall k :: 0 <= k < |f.header| ==> BreakFree(f.header[k]) && f.entry(f.header[k]).None?)
  }

  /** The site a line's object is about. */
  function SiteIn(f: Format, p: Payload): string {
    f.site(Get(p, Fqdn))
  }

  lemma CommentIsNoEntry(codec: Codec, line: string)
    requires line != "" && line[0] == '#'
    ensures EntryOf(codec, line).None?
  {
    assert LStrip(line) == line;
  }

  lemma DumpIsEntry(codec: Codec, p: Payload)
    requires Faithful(codec) && Fqdn in p && Readable(p)
    ensures EntryOf(codec, codec.dump(p)) == Some(p)
  {
    var line := codec.dump(p);
    assert line[0] == '{' && !IsSpace(line[0]);
    assert !Blank(line) && LStrip(line) == line;
  }

  /** The files' format is good, given faithful JSON. */
  lemma FileFormatIsGood(codec: Codec)
    requires Faithful(codec)
    ensures Good(FileFormat(codec))
  {
    var f := FileFormat(codec);
    forall p | Fqdn in p && Readable(p) ensures f.entry(f.dump(p)) == Some(p) { DumpIsEntry(codec, p); }
    HeaderIsComment(codec);
  }

  lemma HeaderStartBreakFree()
    ensures BreakFree(HEADER_START)
  {
    assert BreakFree("# Candidate sites for evaluation. ") && BreakFree("Set \"expected\" on every line;");
    BreakFreeConcat("# Candidate sites for evaluation. ", "Set \"expected\" on every line;");
  }

  lemma HeaderEndBreakFree()
    ensures BreakFree(HEADER_END)
  {
    assert BreakFree("# see docs/labelling-protocol.md. ") && BreakFree("Unlabelled entries are refused.");
    BreakFreeConcat("# see docs/labelling-protocol.md. ", "Unlabelled entries are refused.");
  }

  lemma BreakFreeConcat(a: string, b: string)
    requires BreakFree(a) && BreakFree(b)
    ensures BreakFree(a + b)
  {
    assert forall i :: |a| <= i < |a + b| ==> (a + b)[i] == b[i - |a|];
  }

  lemma HeaderIsComment(codec: Codec)
    ensures forall k :: 0 <= k < |HEADER| ==> BreakFree(HEADER[k]) && EntryOf(codec, HEADER[k]).None?
  {
    HeaderStartBreakFree();
    HeaderEndBreakFree();
    CommentIsNoEntry(codec, HEADER_START);
    CommentIsNoEntry(codec, HEADER_END);
  }

  // ------------------------------------------------- relabelling a line

  predicate IsSite(f: Format, line: string, fqdn: string) {
    f.entry(line).Some? && SiteIn(f, f.entry(line).value) == fqdn
  }

  predicate Contradicts(previous: ExistingLabel, d: Decision) {
    previous.labelledBy != Str(HUMAN) && previous.expected !in {Null, Str(d.judged)}
  }

  function Judged(p: Payload, d: Decision): Payload {
    p[Expected := Str(d.judged)][LabelledBy := Str(HUMAN)][LabelledAt := Str(d.stamp)][LabelBasis := Str("screenshot")]
  }

  /** `_relabelled`. */
  function Relabelled(f: Format, p: Payload, d: Decision): Payload {
    if !Contradicts(Existing(p), d) then Judged(p, d)
    else
      var was := f.was(Existing(p));
      Judged(p, d)[Note := Str(if Truthy(Get(p, Note)) then f.text(Get(p, Note)) + "; " + was else was)]
  }

  function NewPayload(fqdn: string, d: Decision, source: string): Payload {
    map[Fqdn := Str(fqdn), Expected := Str(d.judged), Suggestion := JsonOf(d.suggestion), BrandName := JsonOf(d.brand),
        Source := Str(source), LabelledAt := Str(d.stamp), LabelledBy := Str(HUMAN),
        LabelBasis := Str("screenshot"), Note := Null]
  }

  // ------------------------------------------------- the edit, on lines

  /** Position of the site's first line, or the number of lines. */
  function Position(f: Format, lines: seq<string>, fqdn: string): (i: nat)
    ensures i <= |lines|
    ensures i < |lines| ==> IsSite(f, lines[i], fqdn)
    ensures forall j :: 0 <= j < i ==> !IsSite(f, lines[j], fqdn)
  {
    if lines == [] || IsSite(f, lines[0], fqdn) then 0 else 1 + Position(f, lines[1..], fqdn)
  }

  function Edited(f: Format, lines: seq<string>, fqdn: string, d: Decision, source: string): seq<string> {
    var i := Position(f, lines, fqdn);
    if i < |lines| then lines[i := f.dump(Relabelled(f, f.entry(lines[i]).value, d))]
    else (if lines == [] then f.header else lines) + [f.dump(NewPayload(fqdn, d, source))]
  }

  function Newline(raw: string): string {
    if Contains(raw, "\r\n") then "\r\n" else "\n"
  }

  /** The file's text after `record_label`. */
  function Recorded(f: Format, raw: string, fqdn: string, d: Decision, source: string): string {
    Join(Newline(raw), Edited(f, SplitLines(raw), fqdn, d, source)) + Newline(raw)
  }

  predicate Recordable(isIp: string -> bool, fqdn: string, d: Decision) {
    d.judged in REVIEWABLE_LABELS && IsValidHostname(isIp, Norm(fqdn))
  }

  function PreviousLabel(f: Format, lines: seq<string>, fqdn: string): Option<ExistingLabel> {
    var i := Position(f, lines, fqdn);
    if i < |lines| then Some(Existing(f.entry(lines[i]).value)) else None
  }

  function Contents(file: Option<string>): string {
    if file.Some? then file.value else ""
  }

  /** The loop over lines: replaces the site's line in place, else appends one. */
  method EditLines(f: Format, before: seq<string>, site: string, d: Decision, source: string)
    returns (lines: seq<string>, previous: Option<ExistingLabel>)
    ensures lines == Edited(f, before, site, d, source) && previous == PreviousLabel(f, before, site)
  {
    lines, previous := before, None;
    for index := 0 to |before|
      invariant lines == before && previous == None && forall j :: 0 <= j < index ==> !IsSite(f, before[j], site)
    {
      var payload := f.entry(lines[index]);
      if payload.Some? && SiteIn(f, payload.value) == site {
        PositionIs(f, before, site, index);
        previous := Some(Existing(payload.value));
        lines := lines[index := f.dump(Relabelled(f, payload.value, d))];
        return;
      }
    }
    assert Position(f, before, site) == |before|;
    if lines == [] {
      lines := f.header;
    }
    lines := lines + [f.dump(NewPayload(site, d, source))];
  }

  /** `record_label`: the new text, and the label before; None is the ValueError. */
  method RecordLabel(f: Format, isIp: string -> bool, file: Option<string>, fqdn: string, d: Decision, source: string)
    returns (text: Option<string>, previous: Option<ExistingLabel>)
    ensures text.Some? <==> Recordable(isIp, fqdn, d)
    ensures text.Some? ==> text.value == Recorded(f, Contents(file), Norm(fqdn), d, source)
    ensures text.Some? ==> previous == PreviousLabel(f, SplitLines(Contents(file)), Norm(fqdn))
  {
    text, previous := None, None;
    if d.judged !in REVIEWABLE_LABELS {
      return;
    }
    var site := Norm(fqdn);
    if !IsValidHostname(isIp, site) {
      return;
    }
    var raw := if file.Some? then file.value else "";
    var newline := if Contains(raw, "\r\n") then "\r\n" else "\n";
    var lines;
    lines, previous := EditLines(f, SplitLines(raw), site, d, source);
    text := Some(Join(newline, lines) + newline);
  }

  lemma PositionIs(f: Format, lines: seq<string>, fqdn: string, i: nat)
    requires i < |lines| && IsSite(f, lines[i], fqdn) && forall j :: 0 <= j < i ==> !IsSite(f, lines[j], fqdn)
    ensures Position(f, lines, fqdn) == i
  {
  }

  // ------------------------------------------------- byte for byte

  /** One newline style, and a final newline. */
  ghost predicate Canonical(raw: string) {
    exists lines, nl :: nl in {"\n", "\r\n"} && raw == Render(lines, nl) && forall l :: l in lines ==> BreakFree(l)
  }

  lemma {:induction false} NoReturnInside(lines: seq<string>)
    requires forall l :: l in lines ==> BreakFree(l)
    ensures '\r' !in Render(lines, "\n")
  {
    if lines != [] {
      assert lines[0] in lines;
      assert forall k :: 0 <= k < |lines[0]| ==> lines[0][k] != '\r';
      NoReturnInside(lines[1..]);
    }
  }

  /** A rendered file shows the newline it was rendered with. */
  lemma NewlineOfRender(lines: seq<string>, nl: string)
    requires lines != [] && nl in {"\n", "\r\n"} && forall l :: l in lines ==> BreakFree(l)
    ensures Newline(Render(lines, nl)) == nl
  {
    var raw := Render(lines, nl);
    if nl == "\r\n" {
      assert OccursAt(raw, "\r\n", |lines[0]|);
    } else {
      if Contains(raw, "\r\n") {
        var i :| 0 <= i <= |raw| && OccursAt(raw, "\r\n", i);
        assert raw[i..i + 2][0] == '\r' && raw[i] in raw;
        NoReturnInside(lines);
        assert false;
      }
    }
  }

  /** Exactly on such files is writing back what was read, nothing changed, the same bytes. */
  lemma CanonicalIff(raw: string)
    ensures Canonical(raw) <==> Render(SplitLines(raw), Newline(raw)) == raw
  {
    SplitLinesBreakFree(raw);
    if Canonical(raw) {
      var lines, nl :| nl in {"\n", "\r\n"} && raw == Render(lines, nl) && forall l :: l in lines ==> BreakFree(l);
      SplitRendered(lines, nl);
      if lines != [] { NewlineOfRender(lines, nl); }
    }
  }

  lemma EditedBreakFree(f: Format, raw: string, fqdn: string, d: Decision, source: string)
    requires Good(f)
    ensures var after := Edited(f, SplitLines(raw), fqdn, d, source);
            after != [] && forall l :: l in after ==> BreakFree(l)
  {
    SplitLinesBreakFree(raw);
    var lines := SplitLines(raw);
    var after := Edited(f, lines, fqdn, d, source);
    forall l | l in after
      ensures BreakFree(l)
    {
      var k :| 0 <= k < |after| && after[k] == l;
      if k < |lines| && after[k] == lines[k] { assert lines[k] in lines; }
    }
  }

  /** Reading back what was written gives the edited lines and the same newline. */
  lemma RecordedLines(f: Format, raw: string, fqdn: string, d: Decision, source: string)
    requires Good(f)
    ensures var after, lines := Recorded(f, raw, fqdn, d, source), Edited(f, SplitLines(raw), fqdn, d, source);
            after == Render(lines, Newline(raw)) && SplitLines(after) == lines && Newline(after) == Newline(raw)
              && Canonical(after)
  {
    var lines := Edited(f, SplitLines(raw), fqdn, d, source);
    EditedBreakFree(f, raw, fqdn, d, source);
    JoinIsRender(lines, Newline(raw));
    SplitRendered(lines, Newline(raw));
    NewlineOfRender(lines, Newline(raw));
  }

  /** The number of lines grows by one for a new site, by the header too in an empty file, and otherwise not at all. */
  lemma LineCount(f: Format, raw: string, fqdn: string, d: Decision, source: string)
    requires Good(f)
    ensures var before, after := SplitLines(raw), SplitLines(Recorded(f, raw, fqdn, d, source));
            |after| == if Position(f, before, fqdn) < |before| then |before|
                       else if before == [] then 3 else |before| + 1
  {
    RecordedLines(f, raw, fqdn, d, source);
  }

  // ------------------------------------------------- one site's line over time

  /** A relabel sets the judgement, leaves a human's note alone, and touches no other key. */
  lemma RelabelledKeeps(f: Format, p: Payload, d: Decision)
    ensures var q := Relabelled(f, p, d);
            && Existing(q) == ExistingLabel(Str(d.judged), Str(HUMAN), Str(d.stamp))
            && (forall key :: key !in {Expected, LabelledBy, LabelledAt, LabelBasis, Note} ==>
                  (key in q <==> key in p) && (key in p ==> q[key] == p[key]))
            && (Existing(p).labelledBy == Str(HUMAN) ==> Get(q, Note) == Get(p, Note))
  {
  }

  /** Labelling twice alike is labelling once. */
  lemma RelabelTwice(f: Format, p: Payload, d: Decision)
    ensures Relabelled(f, Relabelled(f, p, d), d) == Relabelled(f, p, d)
  {
    RelabelledKeeps(f, p, d);
    var q := Relabelled(f, p, d);
    assert Judged(q, d) == q;
  }

  lemma NewIsRelabelled(f: Format, fqdn: string, d: Decision, source: string)
    ensures Relabelled(f, NewPayload(fqdn, d, source), d) == NewPayload(fqdn, d, source)
  {
    var p := NewPayload(fqdn, d, source);
    assert Judged(p, d) == p;
  }

  /** What the site's line says after the edit. */
  function PayloadAfter(f: Format, lines: seq<string>, fqdn: string, d: Decision, source: string): Payload {
    var i := Position(f, lines, fqdn);
    if i < |lines| then Relabelled(f, f.entry(lines[i]).value, d) else NewPayload(fqdn, d, source)
  }

  /** Where the edit puts it. */
  function PlaceAfter(f: Format, lines: seq<string>, fqdn: string): nat {
    var i := Position(f, lines, fqdn);
    if i < |lines| then i else if lines == [] then |f.header| else |lines|
  }

  /** What can be read stays so under a relabel, and so does a new line's object. */
  lemma RelabelledReadable(f: Format, p: Payload, d: Decision)
    requires Readable(p)
    ensures Readable(Relabelled(f, p, d))
  {
  }

  lemma NewReadable(fqdn: string, d: Decision, source: string)
    ensures Readable(NewPayload(fqdn, d, source))
  {
  }

  lemma PayloadAfterIsSite(f: Format, lines: seq<string>, fqdn: string, d: Decision, source: string)
    requires Good(f) && Norm(fqdn) == fqdn
    ensures var p := PayloadAfter(f, lines, fqdn, d, source);
            Fqdn in p && SiteIn(f, p) == fqdn && f.entry(f.dump(p)) == Some(p)
  {
    var i, p := Position(f, lines, fqdn), PayloadAfter(f, lines, fqdn, d, source);
    if i < |lines| {
      RelabelledKeeps(f, f.entry(lines[i]).value, d);
      RelabelledReadable(f, f.entry(lines[i]).value, d);
    } else {
      NewReadable(fqdn, d, source);
      assert p[Fqdn] == Str(fqdn);
    }
  }

  lemma EditFinds(f: Format, lines: seq<string>, fqdn: string, d: Decision, source: string)
    requires Good(f) && Norm(fqdn) == fqdn
    ensures var after, i, p := Edited(f, lines, fqdn, d, source), PlaceAfter(f, lines, fqdn),
                               PayloadAfter(f, lines, fqdn, d, source);
            && i < |after| && after[i] == f.dump(p) && f.entry(after[i]) == Some(p) && Position(f, after, fqdn) == i
  {
    var after, i := Edited(f, lines, fqdn, d, source), PlaceAfter(f, lines, fqdn);
    PayloadAfterIsSite(f, lines, fqdn, d, source);
    forall j | 0 <= j < i
      ensures !IsSite(f, after[j], fqdn)
    {
      assert after[j] == if lines == [] then f.header[j] else lines[j];
    }
    PositionIs(f, after, fqdn, i);
  }

  /** The same label on the same day again changes nothing. */
  lemma RecordTwice(f: Format, raw: string, fqdn: string, d: Decision, source: string)
    requires Good(f) && Norm(fqdn) == fqdn
    ensures var once := Recorded(f, raw, fqdn, d, source); Recorded(f, once, fqdn, d, source) == once
  {
    var lines := SplitLines(raw);
    var after, i, p := Edited(f, lines, fqdn, d, source), PlaceAfter(f, lines, fqdn),
                       PayloadAfter(f, lines, fqdn, d, source);
    RecordedLines(f, raw, fqdn, d, source);
    EditFinds(f, lines, fqdn, d, source);
    if Position(f, lines, fqdn) < |lines| {
      RelabelTwice(f, f.entry(lines[i]).value, d);
    } else {
      NewIsRelabelled(f, fqdn, d, source);
    }
    assert Edited(f, after, fqdn, d, source) == after[i := after[i]];
    assert after[i := after[i]] == after;
    JoinIsRender(after, Newline(raw));
  }

  /** A file after a history of labels for one site. */
  function History(f: Format, raw: string, fqdn: string, ds: seq<Decision>, source: string): string {
    if ds == [] then raw else Recorded(f, History(f, raw, fqdn, ds[..|ds| - 1], source), fqdn, ds[|ds| - 1], source)
  }

  function NoteIn(f: Format, raw: string, fqdn: string): Option<Json> {
    var lines := SplitLines(raw);
    var i := Position(f, lines, fqdn);
    if i < |lines| then Some(Get(f.entry(lines[i]).value, Note)) else None
  }

  /** After an edit the site's line is found again, and says what the edit made of it. */
  lemma FoundAfter(f: Format, raw: string, fqdn: string, d: Decision, source: string)
    requires Good(f) && Norm(fqdn) == fqdn
    ensures var lines, p := SplitLines(Recorded(f, raw, fqdn, d, source)),
                            PayloadAfter(f, SplitLines(raw), fqdn, d, source);
            Position(f, lines, fqdn) < |lines| && f.entry(lines[Position(f, lines, fqdn)]) == Some(p)
  {
    RecordedLines(f, raw, fqdn, d, source);
    EditFinds(f, SplitLines(raw), fqdn, d, source);
  }

  lemma LabelAfter(f: Format, raw: string, fqdn: string, d: Decision, source: string)
    requires Good(f) && Norm(fqdn) == fqdn
    ensures var after := Recorded(f, raw, fqdn, d, source);
            PreviousLabel(f, SplitLines(after), fqdn) == Some(ExistingLabel(Str(d.judged), Str(HUMAN), Str(d.stamp)))
  {
    FoundAfter(f, raw, fqdn, d, source);
    PayloadIsHuman(f, SplitLines(raw), fqdn, d, source);
  }

  lemma PayloadIsHuman(f: Format, lines: seq<string>, fqdn: string, d: Decision, source: string)
    ensures Existing(PayloadAfter(f, lines, fqdn, d, source)) == ExistingLabel(Str(d.judged), Str(HUMAN), Str(d.stamp))
  {
    var i := Position(f, lines, fqdn);
    if i < |lines| { RelabelledKeeps(f, f.entry(lines[i]).value, d); }
  }

  /** A human's note is left alone. */
  lemma NoteAfter(f: Format, raw: string, fqdn: string, d: Decision, source: string)
    requires Good(f) && Norm(fqdn) == fqdn
    requires PreviousLabel(f, SplitLines(raw), fqdn).Some?
    requires PreviousLabel(f, SplitLines(raw), fqdn).value.labelledBy == Str(HUMAN)
    ensures NoteIn(f, Recorded(f, raw, fqdn, d, source), fqdn) == NoteIn(f, raw, fqdn)
  {
    FoundAfter(f, raw, fqdn, d, source);
    var lines := SplitLines(raw);
    RelabelledKeeps(f, f.entry(lines[Position(f, lines, fqdn)]).value, d);
  }

  /** Over a site's whole history of human labels its note changes at the first of them, or never. */
  lemma {:induction false} NotedAtMostOnce(f: Format, raw: string, fqdn: string, ds: seq<Decision>, source: string)
    requires Good(f) && Norm(fqdn) == fqdn && ds != []
    ensures NoteIn(f, History(f, raw, fqdn, ds, source), fqdn) == NoteIn(f, Recorded(f, raw, fqdn, ds[0], source), fqdn)
    ensures PreviousLabel(f, SplitLines(History(f, raw, fqdn, ds, source)), fqdn)
         == Some(ExistingLabel(Str(ds[|ds| - 1].judged), Str(HUMAN), Str(ds[|ds| - 1].stamp)))
  {
    var front, last := ds[..|ds| - 1], ds[|ds| - 1];
    LabelAfter(f, History(f, raw, fqdn, front, source), fqdn, last, source);
    if front != [] {
      NotedAtMostOnce(f, raw, fqdn, front, source);
      NoteAfter(f, History(f, raw, fqdn, front, source), fqdn, last, source);
      assert front[0] == ds[0];
    }
  }
}
