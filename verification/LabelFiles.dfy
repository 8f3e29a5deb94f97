/** Which file a label goes to, and what all the files say together (eval/feedback.py, eval/dataset.py). */
module LabelFiles {
  import opened Wrappers
  import opened Text
  import opened Json
  import opened Labels
  import Runs

  /** The tracked dataset, and the local feed files by name. */
  datatype Files = Files(main: Option<string>, feed: map<string, string>)

  datatype Place = Main | FeedFile(name: string)

  const FEED_LABELS_FILE := "openphish-live.jsonl"

  function LinesOf(files: Files, place: Place): seq<string> {
    match place
    case Main => SplitLines(Contents(files.main))
    case FeedFile(name) => if name in files.feed then SplitLines(files.feed[name]) else []
  }

  // ------------------------------------------------- one file

  /** Hostnames with an entry, in file order. */
  function Hosts(f: Format, lines: seq<string>): seq<string> {
    if lines == [] then [] else
      var entry := f.entry(lines[|lines| - 1]);
      if entry.Some? then Hosts(f, lines[..|lines| - 1]) + [SiteIn(f, entry.value)] else Hosts(f, lines[..|lines| - 1])
  }

  /** `current_labels`: a later line for the same site wins. */
  function LabelsOn(f: Format, lines: seq<string>): map<string, ExistingLabel> {
    if lines == [] then map[] else
      var entry := f.entry(lines[|lines| - 1]);
      if entry.Some? then LabelsOn(f, lines[..|lines| - 1])[SiteIn(f, entry.value) := Existing(entry.value)]
      else LabelsOn(f, lines[..|lines| - 1])
  }

  method CurrentLabels(f: Format, file: Option<string>) returns (labels: map<string, ExistingLabel>)
    ensures labels == LabelsOn(f, SplitLines(Contents(file)))
  {
    labels := map[];
    if file.None? {
      return;
    }
    var lines := SplitLines(file.value);
    for i := 0 to |lines|
      invariant labels == LabelsOn(f, lines[..i])
    {
      assert lines[..i + 1][..i] == lines[..i];
      var payload := f.entry(lines[i]);
      if payload.Some? {
        labels := labels[SiteIn(f, payload.value) := Existing(payload.value)];
      }
    }
    assert lines[..|lines|] == lines;
  }

  lemma {:induction false} LabelledAreHosts(f: Format, lines: seq<string>)
    ensures LabelsOn(f, lines).Keys == Elements(Hosts(f, lines))
  {
    if lines != [] {
      LabelledAreHosts(f, lines[..|lines| - 1]);
      var entry := f.entry(lines[|lines| - 1]);
      if entry.Some? {
        ElementsAppend(Hosts(f, lines[..|lines| - 1]), SiteIn(f, entry.value));
      }
    }
  }

  lemma ElementsAppend<T>(s: seq<T>, x: T)
    ensures Elements(s + [x]) == Elements(s) + {x}
  {
  }

  lemma {:induction false} HostsAre(f: Format, lines: seq<string>, fqdn: string)
    ensures fqdn in Hosts(f, lines) <==> exists i :: 0 <= i < |lines| && IsSite(f, lines[i], fqdn)
  {
    if lines != [] {
      HostsAre(f, lines[..|lines| - 1], fqdn);
      assert forall i :: 0 <= i < |lines| - 1 ==> lines[..|lines| - 1][i] == lines[i];
    }
  }

  lemma FoundIffHost(f: Format, lines: seq<string>, fqdn: string)
    ensures Position(f, lines, fqdn) < |lines| <==> fqdn in Hosts(f, lines)
  {
    HostsAre(f, lines, fqdn);
  }

  /** Replacing a site's line by another of the same site. */
  lemma {:induction false} ReplaceKeepsHosts(f: Format, lines: seq<string>, i: nat, line: string, site: string)
    requires i < |lines| && IsSite(f, lines[i], site) && IsSite(f, line, site)
    ensures Hosts(f, lines[i := line]) == Hosts(f, lines)
    ensures Distinct(Hosts(f, lines)) ==>
              LabelsOn(f, lines[i := line]) == LabelsOn(f, lines)[site := Existing(f.entry(line).value)]
  {
    var n := |lines| - 1;
    if i == n {
      assert lines[i := line][..n] == lines[..n];
    } else {
      assert lines[i := line][..n] == lines[..n][i := line];
      ReplaceKeepsHosts(f, lines[..n], i, line, site);
      if f.entry(lines[n]).Some? && Distinct(Hosts(f, lines)) {
        HostsAre(f, lines[..n], site);
        assert site in Hosts(f, lines[..n]);
        LastIsNew(Hosts(f, lines[..n]), SiteIn(f, f.entry(lines[n]).value));
      }
    }
  }

  lemma LastIsNew<T>(s: seq<T>, x: T)
    requires Distinct(s + [x])
    ensures Distinct(s) && x !in s
  {
    assert forall i :: 0 <= i < |s| ==> (s + [x])[i] == s[i];
    assert (s + [x])[|s|] == x;
  }

  lemma AppendHost(f: Format, lines: seq<string>, line: string)
    requires f.entry(line).Some?
    ensures Hosts(f, lines + [line]) == Hosts(f, lines) + [SiteIn(f, f.entry(line).value)]
    ensures LabelsOn(f, lines + [line])
         == LabelsOn(f, lines)[SiteIn(f, f.entry(line).value) := Existing(f.entry(line).value)]
  {
    assert (lines + [line])[..|lines|] == lines;
  }

  lemma HeaderHasNone(f: Format)
    requires Good(f)
    ensures Hosts(f, f.header) == [] && LabelsOn(f, f.header) == map[]
  {
    var h := f.header;
    assert h[..1][..0] == [] && h[..|h| - 1] == h[..1];
    assert f.entry(h[0]).None? && f.entry(h[1]).None?;
    assert Hosts(f, h[..1]) == Hosts(f, h[..1][..0]) && LabelsOn(f, h[..1]) == LabelsOn(f, h[..1][..0]);
  }

  function HumanLabel(d: Decision): ExistingLabel {
    ExistingLabel(Str(d.judged), Str(HUMAN), Str(d.stamp))
  }

  /** What an edit does to a file's hosts and labels. */
  lemma EditShows(f: Format, lines: seq<string>, fqdn: string, d: Decision, source: string)
    requires Good(f) && Norm(fqdn) == fqdn && Distinct(Hosts(f, lines))
    ensures var after := Edited(f, lines, fqdn, d, source);
            && Hosts(f, after) == (if fqdn in Hosts(f, lines) then Hosts(f, lines) else Hosts(f, lines) + [fqdn])
            && Distinct(Hosts(f, after))
            && LabelsOn(f, after) == LabelsOn(f, lines)[fqdn := HumanLabel(d)]
  {
    var i, p := Position(f, lines, fqdn), PayloadAfter(f, lines, fqdn, d, source);
    PayloadAfterIsSite(f, lines, fqdn, d, source);
    PayloadIsHuman(f, lines, fqdn, d, source);
    FoundIffHost(f, lines, fqdn);
    if i < |lines| {
      ReplaceKeepsHosts(f, lines, i, f.dump(p), fqdn);
    } else {
      HeaderHasNone(f);
      AppendHost(f, if lines == [] then f.header else lines, f.dump(p));
    }
  }

  // ------------------------------------------------- all files

  /** The feed files in the order they are visited: sorted, but any order gives the results below. */
  ghost predicate Listing(files: Files, order: seq<string>) {
    Distinct(order) && Elements(order) == files.feed.Keys
  }

  function FeedLabels(f: Format, files: Files, order: seq<string>): map<string, ExistingLabel> {
    if order == [] then map[] else
      FeedLabels(f, files, order[..|order| - 1]) + LabelsOn(f, LinesOf(files, FeedFile(order[|order| - 1])))
  }

  function AllLabels(f: Format, files: Files, order: seq<string>): map<string, ExistingLabel> {
    FeedLabels(f, files, order) + LabelsOn(f, LinesOf(files, Main))
  }

  /** `all_current_labels`. */
  method AllCurrentLabels(f: Format, files: Files, order: seq<string>) returns (labels: map<string, ExistingLabel>)
    requires Listing(files, order)
    ensures labels == AllLabels(f, files, order)
  {
    labels := map[];
    for i := 0 to |order|
      invariant labels == FeedLabels(f, files, order[..i])
    {
      assert order[..i + 1][..i] == order[..i];
      assert order[i] in Elements(order);
      var more := CurrentLabels(f, Some(files.feed[order[i]]));
      labels := labels + more;
    }
    assert order[..|order|] == order;
    var more := CurrentLabels(f, files.main);
    labels := labels + more;
  }

  /** `label_destination`, as a rule. */
  ghost predicate GoesTo(f: Format, files: Files, order: seq<string>, fqdn: string, found: bool, place: Place,
                         source: string) {
    var tracked := fqdn in Hosts(f, LinesOf(files, Main));
    var inFeed := exists n :: n in order && fqdn in Hosts(f, LinesOf(files, FeedFile(n)));
    && (tracked || (!inFeed && found) ==> place == Main && source == "alerts")
    && (!tracked && inFeed ==>
          && place.FeedFile? && place.name in order && fqdn in Hosts(f, LinesOf(files, place))
          && source == "openphish")
    && (!tracked && !inFeed && !found ==> place == FeedFile(FEED_LABELS_FILE) && source == "openphish")
  }

  /** The first feed file that has the site. */
  method FeedFileOf(f: Format, files: Files, order: seq<string>, site: string) returns (name: Option<string>)
    requires Listing(files, order)
    ensures name.Some? ==> name.value in order && site in Hosts(f, LinesOf(files, FeedFile(name.value)))
    ensures name.None? ==> forall n :: n in order ==> site !in Hosts(f, LinesOf(files, FeedFile(n)))
  {
    for i := 0 to |order|
      invariant forall j :: 0 <= j < i ==> site !in Hosts(f, LinesOf(files, FeedFile(order[j])))
    {
      assert order[i] in Elements(order);
      var labels := CurrentLabels(f, Some(files.feed[order[i]]));
      LabelledAreHosts(f, LinesOf(files, FeedFile(order[i])));
      if site in labels {
        return Some(order[i]);
      }
    }
    name := None;
  }

  method LabelDestination(f: Format, files: Files, order: seq<string>, fqdn: string, found: bool)
    returns (place: Place, source: string)
    requires Listing(files, order)
    ensures GoesTo(f, files, order, Norm(fqdn), found, place, source)
  {
    var site := Norm(fqdn);
    var labels := CurrentLabels(f, files.main);
    LabelledAreHosts(f, LinesOf(files, Main));
    if site in labels {
      return Main, "alerts";
    }
    var name := FeedFileOf(f, files, order, site);
    if name.Some? {
      return FeedFile(name.value), "openphish";
    }
    if found {
      return Main, "alerts";
    }
    return FeedFile(FEED_LABELS_FILE), "openphish";
  }

  // ------------------------------------------------- no site twice

  /** No site appears twice in a file, or in two files. */
  ghost predicate NoRepeats(f: Format, files: Files) {
    && (forall a :: Distinct(Hosts(f, LinesOf(files, a))))
    && (forall a, b, h :: h in Hosts(f, LinesOf(files, a)) && h in Hosts(f, LinesOf(files, b)) ==> a == b)
  }

  function Put(files: Files, place: Place, text: string): Files {
    match place
    case Main => files.(main := Some(text))
    case FeedFile(name) => files.(feed := files.feed[name := text])
  }

  function TextAt(files: Files, place: Place): string {
    match place
    case Main => Contents(files.main)
    case FeedFile(name) => if name in files.feed then files.feed[name] else ""
  }

  /** The files after a label is written to one of them. */
  function Written(f: Format, files: Files, place: Place, fqdn: string, d: Decision, source: string): Files {
    Put(files, place, Recorded(f, TextAt(files, place), fqdn, d, source))
  }

  lemma LinesWritten(f: Format, files: Files, place: Place, fqdn: string, d: Decision, source: string, at: Place)
    requires Good(f)
    ensures LinesOf(Written(f, files, place, fqdn, d, source), at)
         == if at == place then Edited(f, LinesOf(files, place), fqdn, d, source) else LinesOf(files, at)
  {
    RecordedLines(f, TextAt(files, place), fqdn, d, source);
    assert SplitLines("") == [];
    assert LinesOf(files, place) == SplitLines(TextAt(files, place));
  }

  /** The destination never duplicates a site: it is the file that has it, or no file has it. */
  ghost predicate SafePlace(f: Format, files: Files, place: Place, fqdn: string) {
    forall a :: fqdn in Hosts(f, LinesOf(files, a)) ==> a == place
  }

  lemma DestinationIsSafe(f: Format, files: Files, order: seq<string>, fqdn: string, found: bool, place: Place,
                          source: string)
    requires Listing(files, order) && NoRepeats(f, files) && GoesTo(f, files, order, fqdn, found, place, source)
    ensures SafePlace(f, files, place, fqdn)
  {
    forall a | fqdn in Hosts(f, LinesOf(files, a))
      ensures a == place
    {
      if a.FeedFile? {
        assert a.name in files.feed;
        assert a.name in Elements(order);
      }
    }
  }

  lemma WrittenKeepsUnique(f: Format, files: Files, place: Place, fqdn: string, d: Decision, source: string)
    requires Good(f) && Norm(fqdn) == fqdn && NoRepeats(f, files) && SafePlace(f, files, place, fqdn)
    ensures NoRepeats(f, Written(f, files, place, fqdn, d, source))
  {
    var after := Written(f, files, place, fqdn, d, source);
    EditShows(f, LinesOf(files, place), fqdn, d, source);
    forall a
      ensures Distinct(Hosts(f, LinesOf(after, a)))
      ensures forall h :: h in Hosts(f, LinesOf(after, a)) ==>
                h in Hosts(f, LinesOf(files, a)) || (h == fqdn && a == place)
    {
      LinesWritten(f, files, place, fqdn, d, source, a);
    }
  }

  // ------------------------------------------------- the combined view

  /** At most one feed file has the site. */
  ghost predicate InOneFeedFile(f: Format, files: Files, fqdn: string) {
    forall m, n :: fqdn in Hosts(f, LinesOf(files, FeedFile(m))) && fqdn in Hosts(f, LinesOf(files, FeedFile(n))) ==>
      m == n
  }

  ghost predicate InSomeFeedFile(f: Format, files: Files, order: seq<string>, fqdn: string) {
    exists n :: n in order && fqdn in Hosts(f, LinesOf(files, FeedFile(n)))
  }

  lemma OneMoreFile(f: Format, files: Files, front: seq<string>, last: string, fqdn: string)
    ensures InSomeFeedFile(f, files, front + [last], fqdn) <==>
              InSomeFeedFile(f, files, front, fqdn) || fqdn in Hosts(f, LinesOf(files, FeedFile(last)))
  {
    assert last in front + [last];
  }

  lemma {:induction false} FeedLabelsHave(f: Format, files: Files, order: seq<string>, fqdn: string)
    ensures fqdn in FeedLabels(f, files, order) <==> InSomeFeedFile(f, files, order, fqdn)
  {
    if order != [] {
      var front, last := order[..|order| - 1], order[|order| - 1];
      FeedLabelsHave(f, files, front, fqdn);
      assert order == front + [last];
      OneMoreFile(f, files, front, last, fqdn);
      LabelledAreHosts(f, LinesOf(files, FeedFile(last)));
    }
  }

  lemma {:induction false} FeedLabelsAre(f: Format, files: Files, order: seq<string>, fqdn: string, n: string)
    requires InOneFeedFile(f, files, fqdn) && n in order && fqdn in Hosts(f, LinesOf(files, FeedFile(n)))
    ensures fqdn in FeedLabels(f, files, order) && fqdn in LabelsOn(f, LinesOf(files, FeedFile(n)))
    ensures FeedLabels(f, files, order)[fqdn] == LabelsOn(f, LinesOf(files, FeedFile(n)))[fqdn]
  {
    var front, last := order[..|order| - 1], order[|order| - 1];
    LabelledAreHosts(f, LinesOf(files, FeedFile(n)));
    LabelledAreHosts(f, LinesOf(files, FeedFile(last)));
    if n != last {
      assert order == front + [last];
      FeedLabelsAre(f, files, front, fqdn, n);
    }
  }

  function Look(labels: map<string, ExistingLabel>, fqdn: string): Option<ExistingLabel> {
    if fqdn in labels then Some(labels[fqdn]) else None
  }

  /**
   * With no site twice, the view shows each site as the one file that has it shows it, in whatever order the files
   * are read.
   */
  lemma ViewIs(f: Format, files: Files, order: seq<string>, fqdn: string)
    requires NoRepeats(f, files) && Listing(files, order)
    ensures (forall a :: fqdn !in Hosts(f, LinesOf(files, a))) ==> Look(AllLabels(f, files, order), fqdn).None?
    ensures forall a :: fqdn in Hosts(f, LinesOf(files, a)) ==>
              Look(AllLabels(f, files, order), fqdn).Some?
              && Look(AllLabels(f, files, order), fqdn) == Look(LabelsOn(f, LinesOf(files, a)), fqdn)
  {
    FeedLabelsHave(f, files, order, fqdn);
    LabelledAreHosts(f, LinesOf(files, Main));
    forall a | fqdn in Hosts(f, LinesOf(files, a))
      ensures Look(AllLabels(f, files, order), fqdn).Some?
      ensures Look(AllLabels(f, files, order), fqdn) == Look(LabelsOn(f, LinesOf(files, a)), fqdn)
    {
      LabelledAreHosts(f, LinesOf(files, a));
      if a.FeedFile? {
        assert a.name in files.feed;
        assert a.name in Elements(order);
        assert fqdn !in Hosts(f, LinesOf(files, Main));
        FeedLabelsAre(f, files, order, fqdn, a.name);
      }
    }
  }

  /** What an edit shows in one file. */
  lemma FileAfterLabel(f: Format, files: Files, place: Place, fqdn: string, d: Decision, source: string, a: Place,
                       h: string)
    requires Good(f) && Norm(fqdn) == fqdn && NoRepeats(f, files)
    ensures var after := Written(f, files, place, fqdn, d, source);
            && (h in Hosts(f, LinesOf(after, a)) <==> h in Hosts(f, LinesOf(files, a)) || (h == fqdn && a == place))
            && Look(LabelsOn(f, LinesOf(after, a)), h)
               == if h == fqdn && a == place then Some(HumanLabel(d)) else Look(LabelsOn(f, LinesOf(files, a)), h)
  {
    EditShows(f, LinesOf(files, place), fqdn, d, source);
    LinesWritten(f, files, place, fqdn, d, source, a);
  }

  lemma SiteAfterLabel(f: Format, files: Files, order: seq<string>, place: Place, fqdn: string, d: Decision,
                       source: string, newOrder: seq<string>, h: string)
    requires Good(f) && Norm(fqdn) == fqdn && NoRepeats(f, files) && SafePlace(f, files, place, fqdn)
    requires Listing(files, order) && Listing(Written(f, files, place, fqdn, d, source), newOrder)
    ensures Look(AllLabels(f, Written(f, files, place, fqdn, d, source), newOrder), h)
         == if h == fqdn then Some(HumanLabel(d)) else Look(AllLabels(f, files, order), h)
  {
    var after := Written(f, files, place, fqdn, d, source);
    WrittenKeepsUnique(f, files, place, fqdn, d, source);
    ViewIs(f, files, order, h);
    ViewIs(f, after, newOrder, h);
    if h == fqdn {
      FileAfterLabel(f, files, place, fqdn, d, source, place, h);
    } else if a :| h in Hosts(f, LinesOf(files, a)) {
      FileAfterLabel(f, files, place, fqdn, d, source, a, h);
    } else {
      forall a ensures h !in Hosts(f, LinesOf(after, a)) {
        FileAfterLabel(f, files, place, fqdn, d, source, a, h);
      }
    }
  }

  /** After a label the combined view shows it for that site and is the same everywhere else. */
  lemma ViewAfterLabel(f: Format, files: Files, order: seq<string>, place: Place, fqdn: string, d: Decision,
                       source: string, newOrder: seq<string>)
    requires Good(f) && Norm(fqdn) == fqdn && NoRepeats(f, files) && SafePlace(f, files, place, fqdn)
    requires Listing(files, order) && Listing(Written(f, files, place, fqdn, d, source), newOrder)
    ensures AllLabels(f, Written(f, files, place, fqdn, d, source), newOrder)
         == AllLabels(f, files, order)[fqdn := HumanLabel(d)]
  {
    var before, after := AllLabels(f, files, order), AllLabels(f, Written(f, files, place, fqdn, d, source), newOrder);
    forall h
      ensures Look(after, h) == Look(before[fqdn := HumanLabel(d)], h)
    {
      SiteAfterLabel(f, files, order, place, fqdn, d, source, newOrder, h);
    }
    SameLooks(after, before[fqdn := HumanLabel(d)]);
  }

  lemma SameLooks(a: map<string, ExistingLabel>, b: map<string, ExistingLabel>)
    requires forall h :: Look(a, h) == Look(b, h)
    ensures a == b
  {
    assert forall h :: h in a <==> h in b by {
      forall h ensures h in a <==> h in b { assert Look(a, h) == Look(b, h); }
    }
    forall h | h in a ensures a[h] == b[h] { assert Look(a, h) == Look(b, h); }
  }

  // ------------------------------------------------- a label, routed and written

  /** An analyst's decision about a finding; `found` is whether the certificate scoring found the site. */
  datatype Action = Action(fqdn: string, found: bool, d: Decision)

  /** `label_destination` then `record_label`; a refused label changes nothing. */
  ghost predicate LabelStep(f: Format, isIp: string -> bool, files: Files, a: Action, after: Files) {
    if !Recordable(isIp, a.fqdn, a.d) then after == files
    else exists order, place, source ::
      && Listing(files, order) && GoesTo(f, files, order, Norm(a.fqdn), a.found, place, source)
      && after == Written(f, files, place, Norm(a.fqdn), a.d, source)
  }

  /** The dashboard's two calls, on the folder of label files. */
  class LabelFolder {
    var files: Files

    constructor (files: Files)
      ensures this.files == files
    {
      this.files := files;
    }

    method Label(f: Format, isIp: string -> bool, order: seq<string>, a: Action) returns (done: bool)
      requires Listing(files, order)
      modifies this
      ensures LabelStep(f, isIp, old(files), a, files)
      ensures done <==> Recordable(isIp, a.fqdn, a.d)
    {
      var place, source := LabelDestination(f, files, order, a.fqdn, a.found);
      var file := if place == Main then files.main
                  else if place.name in files.feed then Some(files.feed[place.name]) else None;
      var text, previous := RecordLabel(f, isIp, file, a.fqdn, a.d, source);
      done := text.Some?;
      if done {
        assert Contents(file) == TextAt(files, place);
        files := Put(files, place, text.value);
      }
    }
  }

  lemma StepKeepsUnique(f: Format, isIp: string -> bool, files: Files, a: Action, after: Files)
    requires Good(f) && NoRepeats(f, files) && LabelStep(f, isIp, files, a, after)
    ensures NoRepeats(f, after)
  {
    if Recordable(isIp, a.fqdn, a.d) {
      var order, place, source :|
        && Listing(files, order) && GoesTo(f, files, order, Norm(a.fqdn), a.found, place, source)
        && after == Written(f, files, place, Norm(a.fqdn), a.d, source);
      NormTwice(a.fqdn);
      DestinationIsSafe(f, files, order, Norm(a.fqdn), a.found, place, source);
      WrittenKeepsUnique(f, files, place, Norm(a.fqdn), a.d, source);
    }
  }

  /** One label: the combined view shows it for that site, and nothing else changes. */
  lemma StepShows(f: Format, isIp: string -> bool, files: Files, a: Action, after: Files, before: seq<string>,
                  then_: seq<string>)
    requires Good(f) && NoRepeats(f, files) && LabelStep(f, isIp, files, a, after) && Listing(files, before)
    requires Listing(after, then_)
    ensures AllLabels(f, after, then_)
         == if Recordable(isIp, a.fqdn, a.d) then AllLabels(f, files, before)[Norm(a.fqdn) := HumanLabel(a.d)]
            else AllLabels(f, files, before)
  {
    if Recordable(isIp, a.fqdn, a.d) {
      var order, place, source :|
        && Listing(files, order) && GoesTo(f, files, order, Norm(a.fqdn), a.found, place, source)
        && after == Written(f, files, place, Norm(a.fqdn), a.d, source);
      NormTwice(a.fqdn);
      DestinationIsSafe(f, files, order, Norm(a.fqdn), a.found, place, source);
      ViewAfterLabel(f, files, before, place, Norm(a.fqdn), a.d, source, then_);
    } else {
      OrderInvisible(f, files, before, then_);
    }
  }

  lemma OrderInvisible(f: Format, files: Files, a: seq<string>, b: seq<string>)
    requires NoRepeats(f, files) && Listing(files, a) && Listing(files, b)
    ensures AllLabels(f, files, a) == AllLabels(f, files, b)
  {
    forall h ensures Look(AllLabels(f, files, a), h) == Look(AllLabels(f, files, b), h) {
      ViewIs(f, files, a, h);
      ViewIs(f, files, b, h);
    }
    SameLooks(AllLabels(f, files, a), AllLabels(f, files, b));
  }

  // ------------------------------------------------- every sequence of labels

  ghost function Step(f: Format, isIp: string -> bool): (Files, Action, Files) -> bool {
    (files, a, after) => LabelStep(f, isIp, files, a, after)
  }

  /** The files before and after each of a sequence of labels. */
  ghost predicate Trail(f: Format, isIp: string -> bool, states: seq<Files>, actions: seq<Action>) {
    Runs.Trail(Step(f, isIp), states, actions)
  }

  /** No sequence of labels ever puts a site in twice. */
  lemma TrailKeepsUnique(f: Format, isIp: string -> bool, states: seq<Files>, actions: seq<Action>, n: nat)
    requires Good(f) && Trail(f, isIp, states, actions) && n < |states| && NoRepeats(f, states[0])
    ensures NoRepeats(f, states[n])
  {
    var keeps: Files -> bool := files => NoRepeats(f, files);
    forall files, a, after | keeps(files) && Step(f, isIp)(files, a, after)
      ensures keeps(after)
    {
      StepKeepsUnique(f, isIp, files, a, after);
    }
    Runs.TrailKeeps(Step(f, isIp), (_: Action) => true, keeps, states, actions, n);
  }

  ghost predicate Untracked(f: Format, files: Files, h: string) {
    h !in Hosts(f, LinesOf(files, Main))
  }

  /** A label goes to the tracked dataset only for a site it has already, or one the scoring found. */
  lemma RoutedAway(f: Format, files: Files, order: seq<string>, a: Action, place: Place, source: string, h: string)
    requires GoesTo(f, files, order, Norm(a.fqdn), a.found, place, source)
    requires Untracked(f, files, h) && (Norm(a.fqdn) == h ==> !a.found)
    ensures Norm(a.fqdn) == h ==> place != Main
  {
  }

  lemma WrittenNeverTracks(f: Format, files: Files, place: Place, fqdn: string, d: Decision, source: string, h: string)
    requires Good(f) && Norm(fqdn) == fqdn && NoRepeats(f, files)
    requires Untracked(f, files, h) && (fqdn == h ==> place != Main)
    ensures Untracked(f, Written(f, files, place, fqdn, d, source), h)
  {
    FileAfterLabel(f, files, place, fqdn, d, source, Main, h);
  }

  lemma StepNeverTracks(f: Format, isIp: string -> bool, files: Files, a: Action, after: Files, h: string)
    requires Good(f) && NoRepeats(f, files) && LabelStep(f, isIp, files, a, after)
    requires Untracked(f, files, h) && (Norm(a.fqdn) == h ==> !a.found)
    ensures Untracked(f, after, h)
  {
    if Recordable(isIp, a.fqdn, a.d) {
      var order, place, source :|
        && Listing(files, order) && GoesTo(f, files, order, Norm(a.fqdn), a.found, place, source)
        && after == Written(f, files, place, Norm(a.fqdn), a.d, source);
      NormTwice(a.fqdn);
      RoutedAway(f, files, order, a, place, source, h);
      WrittenNeverTracks(f, files, place, Norm(a.fqdn), a.d, source, h);
    }
  }

  ghost predicate NeverFound(actions: seq<Action>, h: string) {
    forall i :: 0 <= i < |actions| ==> Norm(actions[i].fqdn) == h ==> !actions[i].found
  }

  /** What a step keeps about an untracked site. */
  lemma StepKeepsUntracked(f: Format, isIp: string -> bool, files: Files, a: Action, after: Files, h: string)
    requires Good(f) && NoRepeats(f, files) && LabelStep(f, isIp, files, a, after)
    requires Untracked(f, files, h) && (Norm(a.fqdn) == h ==> !a.found)
    ensures NoRepeats(f, after) && Untracked(f, after, h)
  {
    StepKeepsUnique(f, isIp, files, a, after);
    StepNeverTracks(f, isIp, files, a, after, h);
  }

  /** A site the scoring never found, and nobody tracks yet, never enters the tracked dataset. */
  lemma UnscoredNeverTracked(f: Format, isIp: string -> bool, states: seq<Files>, actions: seq<Action>, n: nat,
                             h: string)
    requires Good(f) && Trail(f, isIp, states, actions) && n < |states| && NoRepeats(f, states[0])
    requires Untracked(f, states[0], h) && NeverFound(actions, h)
    ensures NoRepeats(f, states[n]) && Untracked(f, states[n], h)
  {
    var keeps: Files -> bool := files => NoRepeats(f, files) && Untracked(f, files, h);
    var allowed: Action -> bool := (a: Action) => Norm(a.fqdn) == h ==> !a.found;
    forall files, a, after | allowed(a) && keeps(files) && Step(f, isIp)(files, a, after)
      ensures keeps(after)
    {
      StepKeepsUntracked(f, isIp, files, a, after, h);
    }
    Runs.TrailKeeps(Step(f, isIp), allowed, keeps, states, actions, n);
  }
}
