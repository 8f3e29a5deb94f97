/** The lines of the label files as JSON text (eval/feedback.py): what the editor asks of JSON can be had. */
module LabelCodec {
  import opened Wrappers
  import opened Text
  import opened Json
  import opened Labels
  import opened LabelFiles
  import opened Datasets

  function NameOf(key: FieldName): string {
    match key
    case Fqdn => "fqdn"
    case Expected => "expected"
    case LabelledBy => "labelled_by"
    case LabelledAt => "labelled_at"
    case LabelBasis => "label_basis"
    case Note => "note"
    case Suggestion => "suggestion"
    case BrandName => "brand"
    case Source => "source"
    case Other(name) => name
  }

  /** The names the code mentions differ in length, or at one place. */
  lemma NamesDiffer(a: FieldName, b: FieldName)
    requires !a.Other? && !b.Other? && NameOf(a) == NameOf(b)
    ensures a == b
  {
    var x, y := NameOf(a), NameOf(b);
    assert |x| == |y| && x[0] == y[0] && x[|x| - 1] == y[|y| - 1];
  }

  lemma NameReserved(a: FieldName)
    requires !a.Other?
    ensures NameOf(a) in RESERVED
  {
  }

  lemma NamesTell(a: FieldName, b: FieldName)
    requires NameOf(a) == NameOf(b)
    requires (a.Other? ==> a.name !in RESERVED) && (b.Other? ==> b.name !in RESERVED)
    ensures a == b
  {
    if !a.Other? { NameReserved(a); }
    if !b.Other? { NameReserved(b); }
    if !a.Other? && !b.Other? { NamesDiffer(a, b); }
  }

  // ------------------------------------------------- dumping with sorted keys

  lemma {:induction false} BeforeTransitive(a: string, b: string, c: string)
    requires Before(a, b) && Before(b, c)
    ensures Before(a, c)
  {
    if a != "" && a[0] == b[0] == c[0] { BeforeTransitive(a[1..], b[1..], c[1..]); }
  }

  lemma {:induction false} NotBeforeItself(a: string)
    ensures !Before(a, a)
  {
    if a != "" { NotBeforeItself(a[1..]); }
  }

  ghost predicate IsLeast(p: Payload, k: FieldName) {
    k in p && forall l :: l in p ==> !Before(NameOf(l), NameOf(k))
  }

  lemma {:induction false} LeastExists(p: Payload) returns (k: FieldName)
    requires p != map[]
    ensures IsLeast(p, k)
    decreases |p|
  {
    k :| k in p;
    NotBeforeItself(NameOf(k));
    if p - {k} == map[] {
      assert forall m :: m in p && m != k ==> m in p - {k};
    } else {
      var l := LeastExists(p - {k});
      k := LesserOf(p, k, l);
    }
  }

  lemma LesserOf(p: Payload, k: FieldName, l: FieldName) returns (least: FieldName)
    requires k in p && IsLeast(p - {k}, l)
    ensures IsLeast(p, least)
  {
    NotBeforeItself(NameOf(k));
    least := if Before(NameOf(k), NameOf(l)) then k else l;
    forall m | m in p
      ensures !Before(NameOf(m), NameOf(least))
    {
      if m != k {
        assert m in p - {k};
        if least == k && Before(NameOf(m), NameOf(k)) { BeforeTransitive(NameOf(m), NameOf(k), NameOf(l)); }
      }
    }
  }

  ghost function Least(p: Payload): (k: FieldName)
    requires p != map[]
    ensures IsLeast(p, k)
  {
    var witnessed := assert exists k :: IsLeast(p, k) by { var k := LeastExists(p); } true;
    var k :| IsLeast(p, k);
    k
  }

  ghost function SortedFields(p: Payload): seq<Field>
    decreases |p|
  {
    if p == map[] then [] else [Field(NameOf(Least(p)), p[Least(p)])] + SortedFields(p - {Least(p)})
  }

  /** `json.dumps(payload, sort_keys=True)`. */
  ghost function DumpOf(p: Payload): string {
    Print(Obj(SortedFields(p)))
  }

  /** The fields tell what the object was. */
  lemma {:induction false} FieldsTell(p: Payload, q: Payload)
    requires Readable(p) && Readable(q) && SortedFields(p) == SortedFields(q)
    ensures p == q
    decreases |p|
  {
    if p != map[] && q != map[] {
      FirstFields(p);
      FirstFields(q);
      NamesTell(Least(p), Least(q));
      FieldsTell(p - {Least(p)}, q - {Least(q)});
      PutBack(p, q, Least(p));
    }
  }

  lemma FirstFields(p: Payload)
    requires p != map[]
    ensures SortedFields(p) != [] && SortedFields(p)[0] == Field(NameOf(Least(p)), p[Least(p)])
    ensures SortedFields(p)[1..] == SortedFields(p - {Least(p)})
  {
  }

  lemma PutBack(p: Payload, q: Payload, k: FieldName)
    requires k in p && k in q && p[k] == q[k] && p - {k} == q - {k}
    ensures p == q
  {
    assert p == (p - {k})[k := p[k]] && q == (q - {k})[k := q[k]];
  }

  lemma DumpTells(p: Payload, q: Payload)
    requires Readable(p) && Readable(q) && DumpOf(p) == DumpOf(q)
    ensures p == q
  {
    PrintInjective(Obj(SortedFields(p)), Obj(SortedFields(q)));
    FieldsTell(p, q);
  }

  // ------------------------------------------------- a codec

  ghost predicate Says(line: string, p: Payload) {
    Fqdn in p && Readable(p) && DumpOf(p) == line
  }

  ghost function ReadPayload(line: string): (r: Option<Payload>)
    ensures r.Some? ==> Says(line, r.value)
    ensures r.None? ==> forall p :: !Says(line, p)
  {
    if exists p :: Says(line, p) then
      var p :| Says(line, p);
      Some(p)
    else None
  }

  function TextOf(j: Json): string {
    if j.Str? then j.s else Print(j)
  }

  lemma ReadsWhatWasDumped(p: Payload)
    requires Fqdn in p && Readable(p)
    ensures ReadPayload(DumpOf(p)) == Some(p)
  {
    assert Says(DumpOf(p), p);
    DumpTells(ReadPayload(DumpOf(p)).value, p);
  }

  /** What `Faithful` asks for can be had: of lines in the form the editor writes them, JSON is such a codec. */
  lemma FaithfulCodec() returns (codec: Codec)
    ensures Faithful(codec)
  {
    codec := Codec(line => ReadPayload(line), p => DumpOf(p), TextOf);
    forall p: Payload
      ensures BreakFree(codec.dump(p)) && codec.dump(p) != "" && codec.dump(p)[0] == '{'
      ensures Fqdn in p && Readable(p) ==> codec.parse(codec.dump(p)) == Some(p)
    {
      ObjectIsOneLine(SortedFields(p));
      if Fqdn in p && Readable(p) { ReadsWhatWasDumped(p); }
    }
  }

  // ------------------------------------------------- the failing input of `Datasets`, for such a codec

  const HIDDEN_LINE := HEAD + [SEPARATOR] + TAIL

  /** What JSON says of that line: a string may hold a line separator. */
  function HiddenPayload(): Payload {
    map[Fqdn := Str("a"), Note := Str(['x', SEPARATOR, 'y'])]
  }

  ghost function ReadHidden(line: string): Option<Payload> {
    if line == HIDDEN_LINE then Some(HiddenPayload()) else if line in {HEAD, TAIL} then None else ReadPayload(line)
  }

  lemma DumpIsNoneOfThem(p: Payload)
    ensures DumpOf(p) !in {HIDDEN_LINE, HEAD, TAIL}
  {
    var line := DumpOf(p);
    PrintVisible(Obj(SortedFields(p)));
    assert HIDDEN_LINE[|HEAD|] == SEPARATOR && HEAD[|HEAD| - 1] == 'x' && TAIL[0] == 'y';
    assert line[0] == '{' && line[|line| - 1] == '}';
  }

  lemma HidingCodec() returns (codec: Codec)
    ensures Faithful(codec)
    ensures codec.parse(HIDDEN_LINE) == Some(HiddenPayload()) && codec.parse(HEAD).None? && codec.parse(TAIL).None?
    ensures forall s :: codec.text(Str(s)) == s
  {
    codec := Codec(line => ReadHidden(line), p => DumpOf(p), TextOf);
    forall p: Payload
      ensures BreakFree(codec.dump(p)) && codec.dump(p) != "" && codec.dump(p)[0] == '{'
      ensures Fqdn in p && Readable(p) ==> codec.parse(codec.dump(p)) == Some(p)
    {
      ObjectIsOneLine(SortedFields(p));
      HiddenReads(p);
    }
    DifferentLines();
  }

  lemma HiddenReads(p: Payload)
    ensures Fqdn in p && Readable(p) ==> ReadHidden(DumpOf(p)) == Some(p)
  {
    DumpIsNoneOfThem(p);
    if Fqdn in p && Readable(p) { ReadsWhatWasDumped(p); }
  }

  lemma DifferentLines()
    ensures HIDDEN_LINE !in {HEAD, TAIL}
  {
    assert |HIDDEN_LINE| == |HEAD| + 1 + |TAIL|;
  }

  lemma HiddenIsSite(codec: Codec)
    requires Faithful(codec)
    requires codec.parse(HIDDEN_LINE) == Some(HiddenPayload()) && codec.parse(HEAD).None? && codec.parse(TAIL).None?
    ensures var f := FileFormat(codec); IsSite(f, HIDDEN_LINE, "a") && f.entry(HEAD).None? && f.entry(TAIL).None?
  {
    assert HIDDEN_LINE[0] == '{' && !IsSpace('{');
    assert LStrip(HIDDEN_LINE) == HIDDEN_LINE && !Blank(HIDDEN_LINE);
    OneLetterNorm();
  }

  lemma OneLetterNorm()
    ensures Norm("a") == "a"
  {
    NormA();
  }

  /** A codec, files and one label that end with a site in two files, though there was none before. */
  lemma LabelsCanRepeat(isIp: string -> bool, d: Decision) returns (codec: Codec, after: Files)
    requires d.judged in REVIEWABLE_LABELS
    ensures Faithful(codec) && ReadsOnce(FileFormat(codec), HiddenFiles())
    ensures NoRepeats(FileFormat(codec), HiddenFiles())
    ensures LabelStep(FileFormat(codec), isIp, HiddenFiles(), Action("a", true, d), after)
    ensures !ReadsOnce(FileFormat(codec), after)
  {
    codec := HidingCodec();
    FileFormatIsGood(codec);
    HiddenIsSite(codec);
    after := SeparatorRepeats(FileFormat(codec), isIp, d);
  }
}
