/** Loading the evaluation files (eval/dataset.py): the duplicate checks the label files must never trip. */
module Datasets {
  import opened Wrappers
  import opened Text
  import opened Hostnames
  import opened Labels
  import opened LabelFiles
  import Runs

  datatype LoadError = MissingFile | Malformed(line: nat) | Repeated(host: string) | NoSites

  datatype Loaded = Sites(hosts: seq<string>) | Failed(error: LoadError)

  // ------------------------------------------------- lines as a text file is iterated

  predicate IsNewline(c: char) {
    c == '\n' || c == '\r'
  }

  function NewlineAt(s: string): (n: nat)
    ensures n <= |s| && (forall k :: 0 <= k < n ==> !IsNewline(s[k])) && (n < |s| ==> IsNewline(s[n]))
  {
    if s == "" || IsNewline(s[0]) then 0 else 1 + NewlineAt(s[1..])
  }

  /** The lines of a file opened as text: only "\n", "\r" and "\r\n" end a line. */
  function TextLines(s: string): seq<string> {
    if s == "" then [] else
      var n := NewlineAt(s);
      if n == |s| then [s]
      else [s[..n]] + TextLines(s[n + (if "\r\n" <= s[n..] then 2 else 1)..])
  }

  /** Every place where `splitlines` breaks is one where a text file does. */
  ghost predicate PlainBreaks(s: string) {
    forall k :: 0 <= k < |s| && IsBreak(s[k]) ==> IsNewline(s[k])
  }

  lemma PlainBreaksSplit(s: string, n: nat)
    requires n <= |s|
    ensures PlainBreaks(s) <==> PlainBreaks(s[..n]) && PlainBreaks(s[n..])
  {
    if PlainBreaks(s[..n]) && PlainBreaks(s[n..]) {
      forall k | 0 <= k < |s| && IsBreak(s[k])
        ensures IsNewline(s[k])
      {
        assert s[k] == if k < n then s[..n][k] else s[n..][k - n];
      }
    }
  }

  lemma FirstLinesAlike(s: string, n: nat, m: nat)
    requires s != "" && n == NewlineAt(s) && m == LineEnd(s)
    ensures m <= n
    ensures m < n ==> TextLines(s) != SplitLines(s) && !PlainBreaks(s)
  {
    if m < n {
      assert !IsNewline(s[m]) && IsBreak(s[m]);
      assert TextLines(s)[0] == s[..n] && SplitLines(s)[0] == s[..m];
      assert |s[..n]| != |s[..m]|;
    }
  }

  lemma FirstEndPlain(s: string, n: nat, k: nat)
    requires s != "" && n == NewlineAt(s) == LineEnd(s) < |s| && k == (if "\r\n" <= s[n..] then 2 else 1)
    ensures PlainBreaks(s) <==> PlainBreaks(s[n + k..])
  {
    PlainBreaksSplit(s, n + k);
    forall j | 0 <= j < n
      ensures !IsBreak(s[j])
    {
      assert s[..n][j] == s[j];
    }
    assert k == 2 ==> s[n..][1] == s[n + 1];
  }

  /** What follows the first line decides. */
  lemma FirstLinesDecide(s: string, n: nat, k: nat)
    requires s != "" && n == NewlineAt(s) == LineEnd(s) < |s| && k == (if "\r\n" <= s[n..] then 2 else 1)
    ensures TextLines(s) == SplitLines(s) <==> TextLines(s[n + k..]) == SplitLines(s[n + k..])
  {
    assert TextLines(s)[1..] == TextLines(s[n + k..]) && SplitLines(s)[1..] == SplitLines(s[n + k..]);
    assert TextLines(s)[0] == SplitLines(s)[0];
  }

  /** The loader and the editor see the same lines exactly if no line has another kind of break in it. */
  lemma {:induction false} SameLinesIff(raw: string)
    ensures TextLines(raw) == SplitLines(raw) <==> PlainBreaks(raw)
    decreases |raw|
  {
    if raw != "" {
      var n, m := NewlineAt(raw), LineEnd(raw);
      FirstLinesAlike(raw, n, m);
      if m == n < |raw| {
        var k := if "\r\n" <= raw[n..] then 2 else 1;
        SameLinesIff(raw[n + k..]);
        FirstEndPlain(raw, n, k);
        FirstLinesDecide(raw, n, k);
      } else if m == n {
        assert raw[..n] == raw;
      }
    }
  }

  // ------------------------------------------------- load_dataset

  /** A line `_parse_line` refuses; `wellFormed` stands for its checks of the other fields. */
  predicate Bad(f: Format, wellFormed: Payload -> bool, line: string) {
    !f.skips(line) && (f.entry(line).None? || !wellFormed(f.entry(line).value))
  }

  predicate AnyBad(f: Format, wellFormed: Payload -> bool, lines: seq<string>) {
    exists i | 0 <= i < |lines| :: Bad(f, wellFormed, lines[i])
  }

  ghost predicate SkippedIsNoEntry(f: Format) {
    forall line :: f.skips(line) ==> f.entry(line).None?
  }

  /** `iter_dataset`, all of it: the hostnames, or the first line that is refused. */
  method ReadSites(f: Format, wellFormed: Payload -> bool, lines: seq<string>) returns (r: Loaded)
    requires SkippedIsNoEntry(f)
    ensures r.Sites? <==> !AnyBad(f, wellFormed, lines)
    ensures r.Sites? ==> r.hosts == Hosts(f, lines)
    ensures r.Failed? ==> r.error.Malformed?
  {
    var hosts: seq<string> := [];
    for i := 0 to |lines|
      invariant hosts == Hosts(f, lines[..i]) && forall j :: 0 <= j < i ==> !Bad(f, wellFormed, lines[j])
    {
      assert lines[..i + 1][..i] == lines[..i];
      if Bad(f, wellFormed, lines[i]) {
        return Failed(Malformed(i + 1));
      }
      if !f.skips(lines[i]) {
        hosts := hosts + [SiteIn(f, f.entry(lines[i]).value)];
      }
    }
    assert lines[..|lines|] == lines;
    return Sites(hosts);
  }

  /** `load_dataset`: refused exactly for a bad line, a site twice, or no site at all. */
  method LoadDataset(f: Format, wellFormed: Payload -> bool, file: Option<string>) returns (r: Loaded)
    requires SkippedIsNoEntry(f)
    ensures file.None? ==> r == Failed(MissingFile)
    ensures file.Some? ==>
              var lines := TextLines(file.value);
              var hosts := Hosts(f, lines);
              && (r.Sites? <==> !AnyBad(f, wellFormed, lines) && Distinct(hosts) && hosts != [])
              && (r.Sites? ==> r.hosts == hosts)
              && (r.Failed? && r.error.Repeated? <==> !AnyBad(f, wellFormed, lines) && !Distinct(hosts))
              && (r.Failed? && r.error.Repeated? ==> r.error.host in hosts)
  {
    if file.None? {
      return Failed(MissingFile);
    }
    r := ReadSites(f, wellFormed, TextLines(file.value));
    if r.Failed? {
      return;
    }
    var sites := r.hosts;
    var seen: map<string, nat> := map[];
    for i := 0 to |sites|
      invariant seen.Keys == Elements(sites[..i]) && Distinct(sites[..i])
    {
      assert sites[..i + 1] == sites[..i] + [sites[i]];
      if sites[i] in seen {
        RepeatFound(sites, i);
        return Failed(Repeated(sites[i]));
      }
      ElementsAppend(sites[..i], sites[i]);
      assert sites[i] !in sites[..i];
      seen := seen[sites[i] := i + 1];
    }
    assert sites[..|sites|] == sites;
    if sites == [] {
      return Failed(NoSites);
    }
  }

  lemma RepeatFound<T>(s: seq<T>, i: nat)
    requires i < |s| && s[i] in Elements(s[..i])
    ensures !Distinct(s)
  {
    var j :| 0 <= j < i && s[..i][j] == s[i];
    assert s[j] == s[i];
  }

  // ------------------------------------------------- load_all_datasets

  /** The hostnames the loader finds in a file. */
  function ReadHosts(f: Format, files: Files, place: Place): seq<string> {
    Hosts(f, TextLines(TextAt(files, place)))
  }

  /** No site twice, as the loader reads the files. */
  ghost predicate ReadsOnce(f: Format, files: Files) {
    && (forall a :: Distinct(ReadHosts(f, files, a)))
    && (forall a, b, h :: h in ReadHosts(f, files, a) && h in ReadHosts(f, files, b) ==> a == b)
  }

  /** Adds one file's sites; refused at the first that is already there. */
  method Merge(sites: seq<string>, seen: set<string>, more: seq<string>)
    returns (all: seq<string>, known: set<string>, repeated: Option<string>)
    requires Distinct(sites) && seen == Elements(sites) && Distinct(more)
    ensures repeated.Some? ==> repeated.value in more && repeated.value in seen
    ensures repeated.None? ==> all == sites + more && Distinct(all) && known == Elements(all)
  {
    all, known, repeated := sites, seen, None;
    for j := 0 to |more|
      invariant all == sites + more[..j] && Distinct(all) && known == Elements(all)
      invariant forall h :: h in known <==> h in seen || h in more[..j]
    {
      assert more[..j + 1] == more[..j] + [more[j]] && more[j] !in more[..j];
      if more[j] in known {
        repeated := Some(more[j]);
        return;
      }
      ElementsAppend(all, more[j]);
      all, known := all + [more[j]], known + {more[j]};
    }
    assert more[..|more|] == more;
  }

  /** Every site of every file, in the order the files are read. */
  ghost function AllOf(read: Place -> seq<string>, order: seq<string>): seq<string> {
    if order == [] then read(Main) else AllOf(read, order[..|order| - 1]) + read(FeedFile(order[|order| - 1]))
  }

  ghost function Reading(f: Format, files: Files): Place -> seq<string> {
    a => ReadHosts(f, files, a)
  }

  ghost function AllHosts(f: Format, files: Files, order: seq<string>): seq<string> {
    AllOf(Reading(f, files), order)
  }

  lemma DistinctParts<T>(a: seq<T>, b: seq<T>)
    ensures Distinct(a + b) <==> Distinct(a) && Distinct(b) && forall x :: x in b ==> x !in a
  {
    var both := a + b;
    if Distinct(both) {
      assert forall i :: 0 <= i < |a| ==> both[i] == a[i];
      assert forall j :: 0 <= j < |b| ==> both[|a| + j] == b[j];
    } else if Distinct(a) && Distinct(b) && forall x :: x in b ==> x !in a {
      forall i, j | 0 <= i < j < |both|
        ensures both[i] != both[j]
      {
        if i < |a| <= j { assert b[j - |a|] in b && a[i] in a; }
      }
    }
  }

  ghost predicate HasHost(f: Format, files: Files, a: Place, h: string) {
    h in ReadHosts(f, files, a)
  }

  ghost predicate Listed(order: seq<string>, a: Place) {
    a == Main || a.name in order
  }

  lemma {:induction false} HostsFrom(read: Place -> seq<string>, order: seq<string>, h: string)
    ensures h in AllOf(read, order) <==> exists a :: Listed(order, a) && h in read(a)
  {
    if order == [] {
      assert Listed(order, Main);
    } else {
      var front, last := order[..|order| - 1], order[|order| - 1];
      HostsFrom(read, front, h);
      assert order == front + [last];
      assert Listed(order, FeedFile(last));
      assert forall a :: Listed(order, a) <==> Listed(front, a) || a == FeedFile(last);
    }
  }

  /** No site twice among these files. */
  ghost predicate OnceAmong(read: Place -> seq<string>, order: seq<string>) {
    && (forall a :: Listed(order, a) ==> Distinct(read(a)))
    && (forall a, b, h :: Listed(order, a) && Listed(order, b) && h in read(a) && h in read(b) ==> a == b)
  }

  lemma {:induction false} DistinctAmongIff(read: Place -> seq<string>, order: seq<string>)
    requires Distinct(order)
    ensures Distinct(AllOf(read, order)) <==> OnceAmong(read, order)
  {
    if order == [] {
      assert forall a :: Listed(order, a) <==> a == Main;
    } else {
      var front, last := order[..|order| - 1], order[|order| - 1];
      DistinctAmongIff(read, front);
      OneMoreAllIff(read, front, last);
      assert order == front + [last] && last !in front;
      OneMoreOnceIff(read, front, last);
    }
  }

  /** The next file's sites are new. */
  ghost predicate AllNew(read: Place -> seq<string>, front: seq<string>, last: string) {
    && Distinct(read(FeedFile(last)))
    && forall a, h :: Listed(front, a) && h in read(a) ==> h !in read(FeedFile(last))
  }

  lemma OneMoreAllIff(read: Place -> seq<string>, front: seq<string>, last: string)
    ensures Distinct(AllOf(read, front + [last])) <==> Distinct(AllOf(read, front)) && AllNew(read, front, last)
  {
    var more := read(FeedFile(last));
    assert (front + [last])[..|front|] == front;
    DistinctParts(AllOf(read, front), more);
    forall h | h in more
      ensures h in AllOf(read, front) <==> exists a :: Listed(front, a) && h in read(a)
    {
      HostsFrom(read, front, h);
    }
  }

  lemma OneMoreOnceIff(read: Place -> seq<string>, front: seq<string>, last: string)
    requires last !in front
    ensures OnceAmong(read, front + [last]) <==> OnceAmong(read, front) && AllNew(read, front, last)
  {
    assert forall a :: Listed(front + [last], a) <==> Listed(front, a) || a == FeedFile(last);
    assert !Listed(front, FeedFile(last));
  }

  /** A missing file holds no site, so the files listed are all that matter. */
  lemma DistinctIff(f: Format, files: Files, order: seq<string>)
    requires Listing(files, order)
    ensures Distinct(AllHosts(f, files, order)) <==> ReadsOnce(f, files)
  {
    DistinctAmongIff(Reading(f, files), order);
    forall a | !Listed(order, a)
      ensures Reading(f, files)(a) == []
    {
      assert a.name !in Elements(order);
    }
    OnceIsOnce(f, files, Reading(f, files), order);
  }

  lemma OnceIsOnce(f: Format, files: Files, read: Place -> seq<string>, order: seq<string>)
    requires forall a :: read(a) == ReadHosts(f, files, a)
    requires forall a :: !Listed(order, a) ==> read(a) == []
    ensures OnceAmong(read, order) <==> ReadsOnce(f, files)
  {
    if OnceAmong(read, order) {
      assert forall a :: Distinct(read(a)) && (read(a) != [] ==> Listed(order, a));
    }
  }

  /** A file the loader takes by itself, but for sites it may repeat. */
  ghost predicate Loadable(f: Format, wellFormed: Payload -> bool, files: Files, a: Place) {
    && (a == Main ==> files.main.Some?)
    && !AnyBad(f, wellFormed, TextLines(TextAt(files, a))) && ReadHosts(f, files, a) != []
  }

  ghost predicate AllLoadable(f: Format, wellFormed: Payload -> bool, files: Files, order: seq<string>) {
    && Loadable(f, wellFormed, files, Main)
    && forall i :: 0 <= i < |order| ==> Loadable(f, wellFormed, files, FeedFile(order[i]))
  }

  /** `load_dataset` on one of the files. */
  method LoadAt(f: Format, wellFormed: Payload -> bool, files: Files, place: Place) returns (r: Loaded)
    requires SkippedIsNoEntry(f) && (place.FeedFile? ==> place.name in files.feed)
    ensures r.Sites? <==> Loadable(f, wellFormed, files, place) && Distinct(ReadHosts(f, files, place))
    ensures r.Sites? ==> r.hosts == ReadHosts(f, files, place)
    ensures Loadable(f, wellFormed, files, place) && r.Failed? ==> r.error.Repeated?
    ensures r.Failed? && r.error.Repeated? ==> !Distinct(ReadHosts(f, files, place))
  {
    var file := if place == Main then files.main else Some(files.feed[place.name]);
    r := LoadDataset(f, wellFormed, file);
    assert file.Some? ==> TextAt(files, place) == file.value;
  }

  lemma {:induction false} PrefixDistinct(read: Place -> seq<string>, order: seq<string>, n: nat)
    requires n <= |order| && Distinct(AllOf(read, order))
    ensures Distinct(AllOf(read, order[..n]))
  {
    if n < |order| {
      var front := order[..|order| - 1];
      DistinctParts(AllOf(read, front), read(FeedFile(order[|order| - 1])));
      assert front[..n] == order[..n];
      PrefixDistinct(read, front, n);
    } else {
      assert order[..n] == order;
    }
  }

  lemma NextHosts(f: Format, files: Files, order: seq<string>, i: nat)
    requires i < |order|
    ensures AllHosts(f, files, order[..i + 1])
         == AllHosts(f, files, order[..i]) + ReadHosts(f, files, FeedFile(order[i]))
    ensures !Distinct(AllHosts(f, files, order[..i + 1])) ==> !Distinct(AllHosts(f, files, order))
  {
    assert order[..i + 1][..i] == order[..i];
    if Distinct(AllHosts(f, files, order)) { PrefixDistinct(Reading(f, files), order, i + 1); }
  }

  /**
   * `load_all_datasets`: it gives all sites of all files exactly if each can be loaded and no site is in twice, in one
   * file or in two; and of loadable files it says a site is in twice exactly if one is.
   */
  method LoadAllDatasets(f: Format, wellFormed: Payload -> bool, files: Files, order: seq<string>) returns (r: Loaded)
    requires SkippedIsNoEntry(f) && Listing(files, order)
    ensures r.Sites? <==> AllLoadable(f, wellFormed, files, order) && ReadsOnce(f, files)
    ensures r.Sites? ==> r.hosts == AllHosts(f, files, order)
    ensures AllLoadable(f, wellFormed, files, order) ==> (r.Failed? && r.error.Repeated? <==> !ReadsOnce(f, files))
    ensures r.Failed? && r.error.Repeated? ==> !ReadsOnce(f, files)
  {
    DistinctIff(f, files, order);
    r := LoadListed(f, wellFormed, files, order);
  }

  method LoadListed(f: Format, wellFormed: Payload -> bool, files: Files, order: seq<string>) returns (r: Loaded)
    requires SkippedIsNoEntry(f) && Listing(files, order)
    ensures r.Sites? <==> AllLoadable(f, wellFormed, files, order) && Distinct(AllHosts(f, files, order))
    ensures r.Sites? ==> r.hosts == AllHosts(f, files, order)
    ensures AllLoadable(f, wellFormed, files, order) && r.Failed? ==> r.error.Repeated?
    ensures r.Failed? && r.error.Repeated? ==> !Distinct(AllHosts(f, files, order))
  {
    assert order[..0] == [];
    if Distinct(AllHosts(f, files, order)) { PrefixDistinct(Reading(f, files), order, 0); }
    r := LoadAt(f, wellFormed, files, Main);
    if r.Failed? {
      return;
    }
    var sites, seen := r.hosts, Elements(r.hosts);
    for i := 0 to |order|
      invariant Distinct(sites) && seen == Elements(sites)
      invariant sites == AllHosts(f, files, order[..i])
      invariant forall j :: 0 <= j < i ==> Loadable(f, wellFormed, files, FeedFile(order[j]))
    {
      assert order[i] in Elements(order);
      NextHosts(f, files, order, i);
      DistinctParts(sites, ReadHosts(f, files, FeedFile(order[i])));
      r := LoadAt(f, wellFormed, files, FeedFile(order[i]));
      if r.Failed? {
        return;
      }
      var all, known, repeated := Merge(sites, seen, r.hosts);
      if repeated.Some? {
        return Failed(Repeated(repeated.value));
      }
      sites, seen := all, known;
    }
    assert order[..|order|] == order;
    r := Sites(sites);
  }

  // ------------------------------------------------- one label

  /** After a label is written, the loader reads that file as the editor sees it, and the others as before. */
  lemma ReadsWritten(f: Format, files: Files, place: Place, fqdn: string, d: Decision, source: string, a: Place)
    requires Good(f)
    ensures ReadHosts(f, Written(f, files, place, fqdn, d, source), a)
         == if a == place then Hosts(f, Edited(f, LinesOf(files, place), fqdn, d, source)) else ReadHosts(f, files, a)
  {
    var text := Recorded(f, TextAt(files, place), fqdn, d, source);
    RecordedLines(f, TextAt(files, place), fqdn, d, source);
    assert SplitLines("") == [];
    assert LinesOf(files, place) == SplitLines(TextAt(files, place));
    RecordedPlain(f, TextAt(files, place), fqdn, d, source);
    SameLinesIff(text);
  }

  lemma {:induction false} RenderedPlain(lines: seq<string>, nl: string)
    requires nl in {"\n", "\r\n"} && forall l :: l in lines ==> BreakFree(l)
    ensures PlainBreaks(Render(lines, nl))
  {
    if lines != [] {
      RenderedPlain(lines[1..], nl);
      var text := Render(lines, nl);
      PlainBreaksSplit(text, |lines[0]| + |nl|);
      assert text[..|lines[0]| + |nl|] == lines[0] + nl && text[|lines[0]| + |nl|..] == Render(lines[1..], nl);
      assert lines[0] in lines;
    }
  }

  lemma RecordedPlain(f: Format, raw: string, fqdn: string, d: Decision, source: string)
    requires Good(f)
    ensures PlainBreaks(Recorded(f, raw, fqdn, d, source))
  {
    RecordedLines(f, raw, fqdn, d, source);
    EditedBreakFree(f, raw, fqdn, d, source);
    RenderedPlain(Edited(f, SplitLines(raw), fqdn, d, source), Newline(raw));
  }

  lemma EditedHosts(f: Format, lines: seq<string>, fqdn: string, d: Decision, source: string)
    requires Good(f) && Norm(fqdn) == fqdn
    ensures Hosts(f, Edited(f, lines, fqdn, d, source))
         == if fqdn in Hosts(f, lines) then Hosts(f, lines) else Hosts(f, lines) + [fqdn]
  {
    var i, p := Position(f, lines, fqdn), PayloadAfter(f, lines, fqdn, d, source);
    PayloadAfterIsSite(f, lines, fqdn, d, source);
    FoundIffHost(f, lines, fqdn);
    if i < |lines| {
      ReplaceKeepsHosts(f, lines, i, f.dump(p), fqdn);
    } else {
      HeaderHasNone(f);
      AppendHost(f, if lines == [] then f.header else lines, f.dump(p));
    }
  }

  /** The sites the editor sees in a file. */
  function SeenHosts(f: Format, files: Files, a: Place): seq<string> {
    Hosts(f, LinesOf(files, a))
  }

  /** The site, and everything the editor sees where it goes, are nowhere else in the loader's eyes. */
  ghost predicate NowhereElse(f: Format, files: Files, place: Place, fqdn: string) {
    && Distinct(SeenHosts(f, files, place))
    && forall a, h :: a != place && HasHost(f, files, a, h) ==> h != fqdn && h !in SeenHosts(f, files, place)
  }

  /** What one label needs, to leave no site in twice: exactly that. */
  lemma WrittenReadsOnceIff(f: Format, files: Files, place: Place, fqdn: string, d: Decision, source: string)
    requires Good(f) && Norm(fqdn) == fqdn && ReadsOnce(f, files)
    ensures ReadsOnce(f, Written(f, files, place, fqdn, d, source)) <==> NowhereElse(f, files, place, fqdn)
  {
    forall a ensures ReadHosts(f, Written(f, files, place, fqdn, d, source), a) == ReadAfter(f, files, place, fqdn, a) {
      ReadsAfter(f, files, place, fqdn, d, source, a);
    }
    AfterReadsOnceIff(f, files, Written(f, files, place, fqdn, d, source), place, fqdn);
  }

  function ReadAfter(f: Format, files: Files, place: Place, fqdn: string, a: Place): seq<string> {
    var seen := SeenHosts(f, files, place);
    if a != place then ReadHosts(f, files, a) else if fqdn in seen then seen else seen + [fqdn]
  }

  lemma ReadsAfter(f: Format, files: Files, place: Place, fqdn: string, d: Decision, source: string, a: Place)
    requires Good(f) && Norm(fqdn) == fqdn
    ensures ReadHosts(f, Written(f, files, place, fqdn, d, source), a) == ReadAfter(f, files, place, fqdn, a)
  {
    ReadsWritten(f, files, place, fqdn, d, source, a);
    EditedHosts(f, LinesOf(files, place), fqdn, d, source);
  }

  lemma AfterReadsOnceIff(f: Format, files: Files, after: Files, place: Place, fqdn: string)
    requires ReadsOnce(f, files) && forall a :: ReadHosts(f, after, a) == ReadAfter(f, files, place, fqdn, a)
    ensures ReadsOnce(f, after) <==> NowhereElse(f, files, place, fqdn)
  {
    DistinctParts(SeenHosts(f, files, place), [fqdn]);
    OncePutIff(f, files, after, place, fqdn);
  }

  lemma OncePutIff(f: Format, files: Files, after: Files, place: Place, fqdn: string)
    requires ReadsOnce(f, files)
    requires forall a :: a != place ==> ReadHosts(f, after, a) == ReadHosts(f, files, a)
    requires var seen := SeenHosts(f, files, place);
             && (forall h :: h in ReadHosts(f, after, place) <==> h in seen || h == fqdn)
             && (Distinct(ReadHosts(f, after, place)) <==> Distinct(seen))
    ensures ReadsOnce(f, after) <==> NowhereElse(f, files, place, fqdn)
  {
    var now, seen := ReadHosts(f, after, place), SeenHosts(f, files, place);
    if ReadsOnce(f, after) {
      forall a, h | a != place && HasHost(f, files, a, h)
        ensures h != fqdn && h !in seen
      {
        assert h in ReadHosts(f, after, a);
      }
    } else if NowhereElse(f, files, place, fqdn) {
      OncePut(f, files, after, place, fqdn);
    }
  }

  lemma OncePut(f: Format, files: Files, after: Files, place: Place, fqdn: string)
    requires ReadsOnce(f, files) && NowhereElse(f, files, place, fqdn)
    requires forall a :: a != place ==> ReadHosts(f, after, a) == ReadHosts(f, files, a)
    requires forall h :: h in ReadHosts(f, after, place) ==> h in SeenHosts(f, files, place) || h == fqdn
    requires Distinct(ReadHosts(f, after, place))
    ensures ReadsOnce(f, after)
  {
    forall a, b, h | h in ReadHosts(f, after, a) && h in ReadHosts(f, after, b)
      ensures a == b
    {
      if a != place { assert HasHost(f, files, a, h); }
      if b != place { assert HasHost(f, files, b, h); }
    }
  }

  // ------------------------------------------------- every sequence of labels

  /** The loader and the editor find the same sites in every file. */
  ghost predicate Agree(f: Format, files: Files) {
    forall a :: ReadHosts(f, files, a) == SeenHosts(f, files, a)
  }

  ghost predicate AllPlain(files: Files) {
    forall a :: PlainBreaks(TextAt(files, a))
  }

  /** With plain line breaks in every file they do. */
  lemma PlainAgree(f: Format, files: Files)
    requires AllPlain(files)
    ensures Agree(f, files)
  {
    forall a
      ensures ReadHosts(f, files, a) == SeenHosts(f, files, a)
    {
      SameLinesIff(TextAt(files, a));
      assert SplitLines("") == [];
    }
  }

  lemma AgreeIsUnique(f: Format, files: Files)
    requires Agree(f, files)
    ensures ReadsOnce(f, files) <==> NoRepeats(f, files)
  {
    assert forall a :: Hosts(f, LinesOf(files, a)) == ReadHosts(f, files, a);
  }

  lemma WrittenKeepsAgree(f: Format, files: Files, place: Place, fqdn: string, d: Decision, source: string)
    requires Good(f) && Agree(f, files)
    ensures Agree(f, Written(f, files, place, fqdn, d, source))
  {
    forall a
      ensures ReadHosts(f, Written(f, files, place, fqdn, d, source), a)
           == SeenHosts(f, Written(f, files, place, fqdn, d, source), a)
    {
      ReadsWritten(f, files, place, fqdn, d, source, a);
      LinesWritten(f, files, place, fqdn, d, source, a);
    }
  }

  /** A site in twice stays in twice: an edit removes none. */
  lemma WrittenKeepsRepeats(f: Format, files: Files, place: Place, fqdn: string, d: Decision, source: string)
    requires Good(f) && Norm(fqdn) == fqdn && Agree(f, files) && !NoRepeats(f, files)
    ensures !NoRepeats(f, Written(f, files, place, fqdn, d, source))
  {
    var after := Written(f, files, place, fqdn, d, source);
    forall a
      ensures SeenHosts(f, files, a) <= SeenHosts(f, after, a)
    {
      LinesWritten(f, files, place, fqdn, d, source, a);
      EditedHosts(f, LinesOf(files, place), fqdn, d, source);
    }
    MoreHosts(f, files, after);
  }

  lemma MoreHosts(f: Format, files: Files, after: Files)
    requires forall a :: SeenHosts(f, files, a) <= SeenHosts(f, after, a)
    ensures NoRepeats(f, after) ==> NoRepeats(f, files)
  {
    if NoRepeats(f, after) {
      forall a
        ensures Distinct(Hosts(f, LinesOf(files, a)))
        ensures forall h :: h in Hosts(f, LinesOf(files, a)) ==> h in Hosts(f, LinesOf(after, a))
      {
        assert SeenHosts(f, files, a) <= SeenHosts(f, after, a) && Distinct(SeenHosts(f, after, a));
      }
    }
  }

  /** What a label keeps: the agreement, and whether there is a site in twice, either way. */
  lemma StepKeepsAgree(f: Format, isIp: string -> bool, files: Files, a: Action, after: Files)
    requires Good(f) && Agree(f, files) && LabelStep(f, isIp, files, a, after)
    ensures Agree(f, after) && (NoRepeats(f, after) <==> NoRepeats(f, files))
  {
    if Recordable(isIp, a.fqdn, a.d) {
      var order, place, source :|
        && Listing(files, order) && GoesTo(f, files, order, Norm(a.fqdn), a.found, place, source)
        && after == Written(f, files, place, Norm(a.fqdn), a.d, source);
      NormTwice(a.fqdn);
      WrittenKeepsAgree(f, files, place, Norm(a.fqdn), a.d, source);
      if NoRepeats(f, files) {
        StepKeepsUnique(f, isIp, files, a, after);
      } else {
        WrittenKeepsRepeats(f, files, place, Norm(a.fqdn), a.d, source);
      }
    }
  }

  /**
   * Where the loader and the editor agree on the sites of the files, no sequence of labels ever changes whether the
   * loader would refuse them for a site that is in twice.
   */
  lemma LabelsNeverRepeat(f: Format, isIp: string -> bool, states: seq<Files>, actions: seq<Action>, n: nat)
    requires Good(f) && Trail(f, isIp, states, actions) && n < |states| && Agree(f, states[0])
    ensures Agree(f, states[n])
    ensures ReadsOnce(f, states[n]) <==> ReadsOnce(f, states[0])
  {
    var once := NoRepeats(f, states[0]);
    var keeps: Files -> bool := files => Agree(f, files) && (NoRepeats(f, files) <==> once);
    forall files, a, after | keeps(files) && Step(f, isIp)(files, a, after)
      ensures keeps(after)
    {
      StepKeepsAgree(f, isIp, files, a, after);
    }
    Runs.TrailKeeps(Step(f, isIp), (_: Action) => true, keeps, states, actions, n);
    AgreeIsUnique(f, states[0]);
    AgreeIsUnique(f, states[n]);
  }

  /** In particular, from files with plain line breaks that it takes, to files it takes. */
  lemma PlainNeverRepeat(f: Format, isIp: string -> bool, states: seq<Files>, actions: seq<Action>, n: nat)
    requires Good(f) && Trail(f, isIp, states, actions) && n < |states|
    requires AllPlain(states[0]) && ReadsOnce(f, states[0])
    ensures ReadsOnce(f, states[n])
  {
    PlainAgree(f, states[0]);
    LabelsNeverRepeat(f, isIp, states, actions, n);
  }

  // ------------------------------------------------- where it fails

  /**
   * A site that the loader finds in one file and the editor in none is the failing case, whatever hides it: one label
   * for it, if scored or else if not, puts it into a second file.
   */
  lemma HiddenSiteRepeats(f: Format, isIp: string -> bool, files: Files, order: seq<string>, a: Place, fqdn: string,
                          d: Decision)
    returns (action: Action, after: Files)
    requires Good(f) && Recordable(isIp, fqdn, d) && Norm(fqdn) == fqdn && Listing(files, order)
    requires HasHost(f, files, a, fqdn) && forall b :: fqdn !in SeenHosts(f, files, b)
    ensures action == Action(fqdn, a != Main, d) && LabelStep(f, isIp, files, action, after)
    ensures !ReadsOnce(f, after)
  {
    var place, source := HiddenGoesTo(f, files, order, a, fqdn);
    action, after := Action(fqdn, a != Main, d), Written(f, files, place, fqdn, d, source);
    assert LabelStep(f, isIp, files, action, after);
    HiddenTwice(f, files, place, fqdn, d, source, a);
  }

  lemma HiddenGoesTo(f: Format, files: Files, order: seq<string>, a: Place, fqdn: string)
    returns (place: Place, source: string)
    requires forall b :: fqdn !in SeenHosts(f, files, b)
    ensures place != a && GoesTo(f, files, order, fqdn, a != Main, place, source)
  {
    place := if a != Main then Main else FeedFile(FEED_LABELS_FILE);
    source := if a != Main then "alerts" else "openphish";
    forall b ensures fqdn !in Hosts(f, LinesOf(files, b)) { assert fqdn !in SeenHosts(f, files, b); }
  }

  lemma HiddenTwice(f: Format, files: Files, place: Place, fqdn: string, d: Decision, source: string, a: Place)
    requires Good(f) && Norm(fqdn) == fqdn && place != a && HasHost(f, files, a, fqdn)
    ensures !ReadsOnce(f, Written(f, files, place, fqdn, d, source))
  {
    var after := Written(f, files, place, fqdn, d, source);
    ReadsWritten(f, files, place, fqdn, d, source, place);
    ReadsWritten(f, files, place, fqdn, d, source, a);
    EditedHosts(f, LinesOf(files, place), fqdn, d, source);
    assert fqdn in ReadHosts(f, after, place) && fqdn in ReadHosts(f, after, a);
  }

  const FEED_NAME := "x.jsonl"
  const SEPARATOR := '\U{2028}'
  const HEAD := "{\"fqdn\": \"a\", \"note\": \"x"
  const TAIL := "y\"}"

  /** One feed file, of one object whose note holds a Unicode line separator, and no tracked dataset. */
  function HiddenFiles(): Files {
    Files(None, map[FEED_NAME := HEAD + [SEPARATOR] + TAIL])
  }

  lemma HiddenLines()
    ensures var line := HEAD + [SEPARATOR] + TAIL;
            TextLines(line) == [line] && SplitLines(line) == [HEAD, TAIL] && !PlainBreaks(line)
  {
    var line := HEAD + [SEPARATOR] + TAIL;
    assert line[|HEAD|] == SEPARATOR;
    assert BreakFree(HEAD) && BreakFree(TAIL);
    forall k | 0 <= k < |line|
      ensures !IsNewline(line[k])
    {
      assert line[k] == if k < |HEAD| then HEAD[k] else if k == |HEAD| then SEPARATOR else TAIL[k - |HEAD| - 1];
    }
    assert NewlineAt(line) == |line|;
    SeparatedLines(HEAD, TAIL);
  }

  lemma SeparatedLines(head: string, tail: string)
    requires BreakFree(head) && BreakFree(tail) && tail != ""
    ensures SplitLines(head + [SEPARATOR] + tail) == [head, tail]
  {
    var s := head + [SEPARATOR] + tail;
    assert s[|head|] == SEPARATOR && forall k :: 0 <= k < |head| ==> s[k] == head[k];
    assert LineEnd(s) == |head| && s[..|head|] == head && s[|head| + 1..] == tail;
    assert LineEnd(tail) == |tail| && SplitLines(tail) == [tail];
  }

  /** What the loader and the editor find in them. */
  lemma HiddenHosts(f: Format)
    requires IsSite(f, HEAD + [SEPARATOR] + TAIL, "a") && f.entry(HEAD).None? && f.entry(TAIL).None?
    ensures forall a :: ReadHosts(f, HiddenFiles(), a) == if a == FeedFile(FEED_NAME) then ["a"] else []
    ensures forall a :: SeenHosts(f, HiddenFiles(), a) == []
  {
    HiddenLines();
    var line := HEAD + [SEPARATOR] + TAIL;
    assert [line][..0] == [] && Hosts(f, [line]) == Hosts(f, [line][..0]) + ["a"];
    assert [HEAD, TAIL][..1] == [HEAD] && [HEAD][..0] == [];
    assert Hosts(f, [HEAD]) == [] && Hosts(f, [HEAD, TAIL]) == [];
  }

  /**
   * The failing input. Nothing is in twice, for the loader or for the editor; then the site is labelled, found by the
   * scoring, and is in two files. What is asked of `f` is what JSON says of the line and of its two halves.
   */
  lemma SeparatorRepeats(f: Format, isIp: string -> bool, d: Decision) returns (after: Files)
    requires Good(f) && d.judged in REVIEWABLE_LABELS
    requires IsSite(f, HEAD + [SEPARATOR] + TAIL, "a") && f.entry(HEAD).None? && f.entry(TAIL).None?
    ensures ReadsOnce(f, HiddenFiles()) && NoRepeats(f, HiddenFiles()) && !AllPlain(HiddenFiles())
    ensures LabelStep(f, isIp, HiddenFiles(), Action("a", true, d), after) && !ReadsOnce(f, after)
  {
    HiddenHosts(f);
    HiddenOnce(f);
    OneLetterSite(isIp);
    assert Distinct([FEED_NAME]) && Elements([FEED_NAME]) == {FEED_NAME} && HiddenFiles().feed.Keys == {FEED_NAME};
    assert HasHost(f, HiddenFiles(), FeedFile(FEED_NAME), "a");
    var action;
    action, after := HiddenSiteRepeats(f, isIp, HiddenFiles(), [FEED_NAME], FeedFile(FEED_NAME), "a", d);
  }

  lemma HiddenOnce(f: Format)
    requires forall a :: ReadHosts(f, HiddenFiles(), a) == if a == FeedFile(FEED_NAME) then ["a"] else []
    requires forall a :: SeenHosts(f, HiddenFiles(), a) == []
    ensures ReadsOnce(f, HiddenFiles()) && NoRepeats(f, HiddenFiles()) && !AllPlain(HiddenFiles())
  {
    assert forall a :: Hosts(f, LinesOf(HiddenFiles(), a)) == SeenHosts(f, HiddenFiles(), a);
    HiddenLines();
    assert !PlainBreaks(TextAt(HiddenFiles(), FeedFile(FEED_NAME)));
  }

  lemma OneLetterSite(isIp: string -> bool)
    ensures Norm("a") == "a" && IsValidHostname(isIp, "a")
  {
    OneLetterValid(isIp);
    assert "a" == ['a'];
    NormA();
  }
}
