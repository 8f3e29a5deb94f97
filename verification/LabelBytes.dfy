/** Which bytes of a label file an edit leaves alone (eval/feedback.py), line endings of every kind included. */
module LabelBytes {
  import opened Wrappers
  import opened Text
  import opened Json
  import opened Labels

  // ------------------------------------------------- lines and what ends them

  function BreakLength(s: string): (n: nat)
    requires s != ""
    ensures n <= |s| && n == |s[..n]|
  {
    if "\r\n" <= s then 2 else 1
  }

  /** What ends each line of `SplitLines`: "" for a last line without an ending. */
  function Ends(s: string): (ends: seq<string>)
    ensures |ends| == |SplitLines(s)|
  {
    if s == "" then [] else
      var n := LineEnd(s);
      if n == |s| then [""]
      else
        OneMoreLine(s, n, BreakLength(s[n..]));
        [s[n..][..BreakLength(s[n..])]] + Ends(s[n + BreakLength(s[n..])..])
  }

  lemma OneMoreLine(s: string, n: nat, k: nat)
    requires s != "" && n == LineEnd(s) < |s| && k == BreakLength(s[n..])
    ensures |SplitLines(s)| == 1 + |SplitLines(s[n + k..])|
  {
  }

  function Glue(lines: seq<string>, ends: seq<string>): string
    requires |lines| == |ends|
  {
    if lines == [] then "" else lines[0] + ends[0] + Glue(lines[1..], ends[1..])
  }

  lemma FirstLine(s: string, n: nat, k: nat)
    requires s != "" && n == LineEnd(s) < |s| && k == BreakLength(s[n..])
    ensures SplitLines(s) == [s[..n]] + SplitLines(s[n + k..])
    ensures Ends(s) == [s[n..][..k]] + Ends(s[n + k..])
  {
  }

  lemma GlueFirst(line: string, end: string, lines: seq<string>, ends: seq<string>)
    requires |lines| == |ends|
    ensures Glue([line] + lines, [end] + ends) == line + end + Glue(lines, ends)
  {
    assert ([line] + lines)[1..] == lines && ([end] + ends)[1..] == ends;
  }

  lemma ThreePieces(s: string, n: nat, k: nat)
    requires n + k <= |s|
    ensures s[..n] + s[n..][..k] + s[n + k..] == s
  {
  }

  lemma GlueStep(s: string, n: nat, k: nat)
    requires s != "" && n == LineEnd(s) < |s| && k == BreakLength(s[n..])
    requires Glue(SplitLines(s[n + k..]), Ends(s[n + k..])) == s[n + k..]
    ensures Glue(SplitLines(s), Ends(s)) == s
  {
    FirstLine(s, n, k);
    GlueFirst(s[..n], s[n..][..k], SplitLines(s[n + k..]), Ends(s[n + k..]));
    ThreePieces(s, n, k);
  }

  /** Nothing is lost: the text is its lines and their endings. */
  lemma {:induction false} GlueSplit(s: string)
    ensures Glue(SplitLines(s), Ends(s)) == s
    decreases |s|
  {
    if s != "" {
      var n := LineEnd(s);
      if n < |s| {
        var k := BreakLength(s[n..]);
        GlueSplit(s[n + k..]);
        GlueStep(s, n, k);
      } else {
        GlueFirst(s, "", [], []);
        assert s + "" + "" == s && [s] + [] == [s] && [""] + [] == [""];
      }
    }
  }

  /** A line ends the same way everywhere but for the last one, which may be cut short. */
  ghost predicate AllEnd(ends: seq<string>, nl: string) {
    forall j :: 0 <= j < |ends| ==> ends[j] == nl
  }

  ghost predicate NoLonger(ends: seq<string>, nl: string) {
    forall j :: 0 <= j < |ends| ==> |ends[j]| <= |nl|
  }

  lemma {:induction false} GlueNoLonger(lines: seq<string>, ends: seq<string>, nl: string)
    requires |lines| == |ends| && NoLonger(ends, nl)
    ensures |Glue(lines, ends)| <= |Render(lines, nl)|
  {
    if lines != [] { GlueNoLonger(lines[1..], ends[1..], nl); }
  }

  /** Lines glued with endings are the lines rendered with one ending exactly if every ending is that one. */
  lemma {:induction false} GlueIsRenderIff(lines: seq<string>, ends: seq<string>, nl: string)
    requires |lines| == |ends| && NoLonger(ends, nl)
    ensures Glue(lines, ends) == Render(lines, nl) <==> AllEnd(ends, nl)
  {
    if lines != [] {
      GlueIsRenderIff(lines[1..], ends[1..], nl);
      GlueNoLonger(lines[1..], ends[1..], nl);
      FirstEndIff(lines[0], ends[0], Glue(lines[1..], ends[1..]), nl, Render(lines[1..], nl));
      assert ends == [ends[0]] + ends[1..];
    }
  }

  lemma FirstEndIff(line: string, end: string, rest: string, nl: string, rendered: string)
    requires |end| <= |nl| && |rest| <= |rendered|
    ensures line + end + rest == line + nl + rendered <==> end == nl && rest == rendered
  {
    var a, b := line + end + rest, line + nl + rendered;
    if a == b {
      assert |end| == |nl|;
      assert a[|line|..|line| + |end|] == end && b[|line|..|line| + |nl|] == nl;
      assert a[|line| + |end|..] == rest && b[|line| + |nl|..] == rendered;
    }
  }

  /** Two texts with a piece in common, the first pieces and the last pieces in order of length. */
  lemma AroundIff(head: string, tail: string, x: string, longHead: string, longTail: string)
    requires |head| <= |longHead| && |tail| <= |longTail|
    ensures head + x + tail == longHead + x + longTail <==> head == longHead && tail == longTail
  {
    var a, b := head + x + tail, longHead + x + longTail;
    if a == b {
      assert a[..|head|] == head && b[..|longHead|] == longHead;
      assert a[|head| + |x|..] == tail && b[|longHead| + |x|..] == longTail;
    }
  }

  /** The newline a file is written with is no shorter than any ending in it. */
  lemma EndsNoLonger(raw: string)
    ensures NoLonger(Ends(raw), Newline(raw))
  {
    if !Contains(raw, "\r\n") { EndsShort(raw); } else { EndsAtMostTwo(raw); }
  }

  lemma {:induction false} EndsAtMostTwo(raw: string)
    ensures forall j :: 0 <= j < |Ends(raw)| ==> |Ends(raw)[j]| <= 2
    decreases |raw|
  {
    if raw != "" && LineEnd(raw) < |raw| {
      EndsAtMostTwo(raw[LineEnd(raw) + BreakLength(raw[LineEnd(raw)..])..]);
    }
  }

  lemma {:induction false} EndsShort(raw: string)
    requires !Contains(raw, "\r\n")
    ensures forall j :: 0 <= j < |Ends(raw)| ==> |Ends(raw)[j]| <= 1
    decreases |raw|
  {
    if raw != "" && LineEnd(raw) < |raw| {
      var n := LineEnd(raw);
      NoPairFrom(raw, n);
      NoPairFrom(raw, n + 1);
      FirstLine(raw, n, 1);
      EndsShort(raw[n + 1..]);
    }
  }

  lemma NoPairFrom(raw: string, n: nat)
    requires n <= |raw| && !Contains(raw, "\r\n")
    ensures !("\r\n" <= raw[n..]) && !Contains(raw[n..], "\r\n")
  {
    if "\r\n" <= raw[n..] { assert OccursAt(raw[n..], "\r\n", 0); }
    if i :| 0 <= i <= |raw[n..]| && OccursAt(raw[n..], "\r\n", i) { OccursFurther(raw, "\r\n", n, i); }
  }

  // ------------------------------------------------- relabelling a site

  lemma {:induction false} GlueConcat(lines: seq<string>, ends: seq<string>, more: seq<string>, moreEnds: seq<string>)
    requires |lines| == |ends| && |more| == |moreEnds|
    ensures Glue(lines + more, ends + moreEnds) == Glue(lines, ends) + Glue(more, moreEnds)
  {
    if lines == [] {
      assert lines + more == more && ends + moreEnds == moreEnds;
    } else {
      assert (lines + more)[1..] == lines[1..] + more && (ends + moreEnds)[1..] == ends[1..] + moreEnds;
      GlueConcat(lines[1..], ends[1..], more, moreEnds);
    }
  }

  lemma GlueAround(lines: seq<string>, ends: seq<string>, i: nat)
    requires i < |lines| == |ends|
    ensures Glue(lines, ends)
         == Glue(lines[..i], ends[..i]) + (lines[i] + ends[i]) + Glue(lines[i + 1..], ends[i + 1..])
  {
    assert lines == lines[..i] + lines[i..] && ends == ends[..i] + ends[i..];
    GlueConcat(lines[..i], ends[..i], lines[i..], ends[i..]);
    assert lines[i..] == [lines[i]] + lines[i + 1..] && ends[i..] == [ends[i]] + ends[i + 1..];
    GlueFirst(lines[i], ends[i], lines[i + 1..], ends[i + 1..]);
    Concat3(Glue(lines[..i], ends[..i]), lines[i] + ends[i], Glue(lines[i + 1..], ends[i + 1..]));
  }

  lemma Concat3(a: string, b: string, c: string)
    ensures a + (b + c) == a + b + c
  {
  }

  lemma RenderReplaced(lines: seq<string>, i: nat, line: string, nl: string)
    requires i < |lines|
    ensures Render(lines[i := line], nl) == Render(lines[..i], nl) + (line + nl) + Render(lines[i + 1..], nl)
  {
    var after := lines[i := line];
    assert after == lines[..i] + ([line] + lines[i + 1..]);
    RenderConcat(lines[..i], [line] + lines[i + 1..], nl);
    assert ([line] + lines[i + 1..])[1..] == lines[i + 1..];
    Concat3(Render(lines[..i], nl), line + nl, Render(lines[i + 1..], nl));
  }

  /** The text before line `i`, and after it. */
  function Ahead(raw: string, i: nat): string
    requires i <= |SplitLines(raw)|
  {
    Glue(SplitLines(raw)[..i], Ends(raw)[..i])
  }

  function Behind(raw: string, i: nat): string
    requires i < |SplitLines(raw)|
  {
    Glue(SplitLines(raw)[i + 1..], Ends(raw)[i + 1..])
  }

  /** The site's line as a relabel writes it, ending and all. */
  function NewLine(f: Format, raw: string, fqdn: string, d: Decision): string
    requires Position(f, SplitLines(raw), fqdn) < |SplitLines(raw)|
  {
    var lines := SplitLines(raw);
    f.dump(Relabelled(f, f.entry(lines[Position(f, lines, fqdn)]).value, d)) + Newline(raw)
  }

  /** Every other line ends as the file will. */
  ghost predicate OthersEnd(raw: string, i: nat) {
    forall j :: 0 <= j < |Ends(raw)| && j != i ==> Ends(raw)[j] == Newline(raw)
  }

  lemma RelabelledText(f: Format, raw: string, fqdn: string, d: Decision, source: string)
    requires Position(f, SplitLines(raw), fqdn) < |SplitLines(raw)|
    ensures var lines, i, nl := SplitLines(raw), Position(f, SplitLines(raw), fqdn), Newline(raw);
            Recorded(f, raw, fqdn, d, source)
            == Render(lines[..i], nl) + NewLine(f, raw, fqdn, d) + Render(lines[i + 1..], nl)
  {
    var lines, i, nl := SplitLines(raw), Position(f, SplitLines(raw), fqdn), Newline(raw);
    var line := f.dump(Relabelled(f, f.entry(lines[i]).value, d));
    RecordedRender(f, raw, fqdn, d, source, i);
    RenderReplaced(lines, i, line, nl);
  }

  lemma RecordedRender(f: Format, raw: string, fqdn: string, d: Decision, source: string, i: nat)
    requires Position(f, SplitLines(raw), fqdn) == i < |SplitLines(raw)|
    ensures var lines := SplitLines(raw);
            Recorded(f, raw, fqdn, d, source)
            == Render(lines[i := f.dump(Relabelled(f, f.entry(lines[i]).value, d))], Newline(raw))
  {
    var lines := SplitLines(raw);
    EditedAt(f, lines, fqdn, d, source, i);
    JoinIsRender(lines[i := f.dump(Relabelled(f, f.entry(lines[i]).value, d))], Newline(raw));
  }

  lemma EditedAt(f: Format, lines: seq<string>, fqdn: string, d: Decision, source: string, i: nat)
    requires Position(f, lines, fqdn) == i < |lines|
    ensures Edited(f, lines, fqdn, d, source) == lines[i := f.dump(Relabelled(f, f.entry(lines[i]).value, d))]
  {
  }

  /** What the pieces around line `i` become. */
  lemma PiecesWholeIff(raw: string, i: nat)
    requires i < |Ends(raw)|
    ensures var lines, nl := SplitLines(raw), Newline(raw);
            && |Ahead(raw, i)| <= |Render(lines[..i], nl)| && |Behind(raw, i)| <= |Render(lines[i + 1..], nl)|
            && (Ahead(raw, i) == Render(lines[..i], nl) && Behind(raw, i) == Render(lines[i + 1..], nl) <==>
                  OthersEnd(raw, i))
  {
    var lines, ends, nl := SplitLines(raw), Ends(raw), Newline(raw);
    EndsNoLonger(raw);
    GlueNoLonger(lines[..i], ends[..i], nl);
    GlueNoLonger(lines[i + 1..], ends[i + 1..], nl);
    GlueIsRenderIff(lines[..i], ends[..i], nl);
    GlueIsRenderIff(lines[i + 1..], ends[i + 1..], nl);
    EndsAroundIff(raw, i);
  }

  /**
   * A relabel keeps every byte before and after the site's own line exactly if every other line ends as the file
   * will.
   */
  lemma OtherBytesStayIff(f: Format, raw: string, fqdn: string, d: Decision, source: string)
    requires Position(f, SplitLines(raw), fqdn) < |SplitLines(raw)|
    ensures var i := Position(f, SplitLines(raw), fqdn);
            && raw == Ahead(raw, i) + (SplitLines(raw)[i] + Ends(raw)[i]) + Behind(raw, i)
            && (Recorded(f, raw, fqdn, d, source) == Ahead(raw, i) + NewLine(f, raw, fqdn, d) + Behind(raw, i)
                <==> OthersEnd(raw, i))
  {
    var lines, i, nl := SplitLines(raw), Position(f, SplitLines(raw), fqdn), Newline(raw);
    GlueSplit(raw);
    GlueAround(lines, Ends(raw), i);
    RelabelledText(f, raw, fqdn, d, source);
    PiecesWholeIff(raw, i);
    AroundIff(Ahead(raw, i), Behind(raw, i), NewLine(f, raw, fqdn, d), Render(lines[..i], nl),
              Render(lines[i + 1..], nl));
  }

  lemma EndsAroundIff(raw: string, i: nat)
    requires i < |Ends(raw)|
    ensures OthersEnd(raw, i) <==> AllEnd(Ends(raw)[..i], Newline(raw)) && AllEnd(Ends(raw)[i + 1..], Newline(raw))
  {
    var ends := Ends(raw);
    if AllEnd(ends[..i], Newline(raw)) && AllEnd(ends[i + 1..], Newline(raw)) {
      forall j | 0 <= j < |ends| && j != i
        ensures ends[j] == Newline(raw)
      {
        assert ends[j] == if j < i then ends[..i][j] else ends[i + 1..][j - (i + 1)];
      }
    }
  }

  /** Every line but this one and the last ends as the file will. */
  ghost predicate MiddlesEnd(raw: string, i: nat) {
    forall j :: 0 <= j < |Ends(raw)| - 1 && j != i ==> Ends(raw)[j] == Newline(raw)
  }

  lemma {:induction false} GlueCompleted(lines: seq<string>, ends: seq<string>, nl: string)
    requires |lines| == |ends| && ends != [] && ends[|ends| - 1] == ""
    ensures Glue(lines, ends[|ends| - 1 := nl]) == Glue(lines, ends) + nl
  {
    var done := ends[|ends| - 1 := nl];
    if |lines| == 1 {
      assert lines[1..] == [] && ends[1..] == [] && done[1..] == [];
    } else {
      assert done[1..] == ends[1..][|ends[1..]| - 1 := nl];
      GlueCompleted(lines[1..], ends[1..], nl);
    }
  }

  /** The endings after line `i`, the last one completed. */
  function EndsBehind(ends: seq<string>, nl: string, i: nat): (behind: seq<string>)
    requires i < |ends| - 1
    ensures |behind| == |ends| - i - 1
  {
    ends[i + 1..][|ends| - i - 2 := nl]
  }

  lemma BehindCompleted(lines: seq<string>, ends: seq<string>, nl: string, i: nat)
    requires |lines| == |ends| && i < |ends| - 1 && ends[|ends| - 1] == ""
    ensures Glue(lines[i + 1..], EndsBehind(ends, nl, i)) == Glue(lines[i + 1..], ends[i + 1..]) + nl
  {
    GlueCompleted(lines[i + 1..], ends[i + 1..], nl);
  }

  /** What the pieces around line `i` become. */
  lemma PiecesIff(lines: seq<string>, ends: seq<string>, nl: string, i: nat)
    requires |lines| == |ends| && i < |ends| - 1 && ends[|ends| - 1] == "" && NoLonger(ends, nl)
    ensures var ahead, behind := Glue(lines[..i], ends[..i]), Glue(lines[i + 1..], ends[i + 1..]) + nl;
            && |ahead| <= |Render(lines[..i], nl)| && |behind| <= |Render(lines[i + 1..], nl)|
            && (ahead == Render(lines[..i], nl) && behind == Render(lines[i + 1..], nl)
                <==> AllEnd(ends[..i], nl) && AllEnd(EndsBehind(ends, nl, i), nl))
  {
    BehindCompleted(lines, ends, nl, i);
    GlueNoLonger(lines[..i], ends[..i], nl);
    GlueNoLonger(lines[i + 1..], EndsBehind(ends, nl, i), nl);
    GlueIsRenderIff(lines[..i], ends[..i], nl);
    GlueIsRenderIff(lines[i + 1..], EndsBehind(ends, nl, i), nl);
  }

  lemma PiecesMiddleIff(raw: string, i: nat)
    requires i < |Ends(raw)| - 1 && Ends(raw)[|Ends(raw)| - 1] == ""
    ensures var lines, nl := SplitLines(raw), Newline(raw);
            && |Ahead(raw, i)| <= |Render(lines[..i], nl)| && |Behind(raw, i) + nl| <= |Render(lines[i + 1..], nl)|
            && (Ahead(raw, i) == Render(lines[..i], nl) && Behind(raw, i) + nl == Render(lines[i + 1..], nl) <==>
                  MiddlesEnd(raw, i))
  {
    EndsNoLonger(raw);
    PiecesIff(SplitLines(raw), Ends(raw), Newline(raw), i);
    MiddlesAroundIff(raw, i);
  }

  /**
   * A file without a final newline is given one. Apart from that, a relabel of an earlier line keeps every byte around
   * it exactly if every other line that has an ending ends as the file will.
   */
  lemma OnlyNewlineAddedIff(f: Format, raw: string, fqdn: string, d: Decision, source: string)
    requires Position(f, SplitLines(raw), fqdn) < |SplitLines(raw)| - 1 && Ends(raw)[|Ends(raw)| - 1] == ""
    ensures var i := Position(f, SplitLines(raw), fqdn);
            Recorded(f, raw, fqdn, d, source)
              == Ahead(raw, i) + NewLine(f, raw, fqdn, d) + (Behind(raw, i) + Newline(raw))
            <==> MiddlesEnd(raw, i)
  {
    var lines, i, nl := SplitLines(raw), Position(f, SplitLines(raw), fqdn), Newline(raw);
    RelabelledText(f, raw, fqdn, d, source);
    PiecesMiddleIff(raw, i);
    AroundIff(Ahead(raw, i), Behind(raw, i) + nl, NewLine(f, raw, fqdn, d), Render(lines[..i], nl),
              Render(lines[i + 1..], nl));
  }

  lemma MiddlesAroundIff(raw: string, i: nat)
    requires i < |Ends(raw)| - 1
    ensures MiddlesEnd(raw, i) <==>
              AllEnd(Ends(raw)[..i], Newline(raw)) && AllEnd(EndsBehind(Ends(raw), Newline(raw), i), Newline(raw))
  {
    MiddlesIff(Ends(raw), Newline(raw), i);
  }

  lemma MiddlesIff(ends: seq<string>, nl: string, i: nat)
    requires i < |ends| - 1
    ensures (forall j :: 0 <= j < |ends| - 1 && j != i ==> ends[j] == nl) <==>
              AllEnd(ends[..i], nl) && AllEnd(EndsBehind(ends, nl, i), nl)
  {
    if AllEnd(ends[..i], nl) && AllEnd(EndsBehind(ends, nl, i), nl) {
      forall j | 0 <= j < |ends| - 1 && j != i
        ensures ends[j] == nl
      {
        assert ends[j] == if j < i then ends[..i][j] else EndsBehind(ends, nl, i)[j - (i + 1)];
      }
    }
  }

  // ------------------------------------------------- adding a site

  /** A new line goes after the old ones, or after the header if there are none. */
  lemma AppendedText(f: Format, raw: string, fqdn: string, d: Decision, source: string)
    requires Position(f, SplitLines(raw), fqdn) == |SplitLines(raw)|
    ensures var lines, nl := if raw == "" then f.header else SplitLines(raw), Newline(raw);
            Recorded(f, raw, fqdn, d, source) == Render(lines, nl) + (f.dump(NewPayload(fqdn, d, source)) + nl)
  {
    var lines, nl := if raw == "" then f.header else SplitLines(raw), Newline(raw);
    var line := f.dump(NewPayload(fqdn, d, source));
    JoinIsRender(lines + [line], nl);
    RenderConcat(lines, [line], nl);
    assert [line][1..] == [] && line + nl + "" == line + nl;
  }

  /** Every line but the last ends with `nl`, and the last with a beginning of it. */
  predicate EndsInto(ends: seq<string>, nl: string) {
    && (forall j | 0 <= j < |ends| - 1 :: ends[j] == nl)
    && (ends != [] ==> ends[|ends| - 1] <= nl)
  }

  /** A first line that does not end with `nl` is still a beginning only as the last line, and cut short. */
  lemma FirstPieceIff(line: string, end: string, rest: string, nl: string, rendered: string)
    requires nl in {"\n", "\r\n"} && |end| == 1 && end != nl && (end == "\r" ==> !("\n" <= rest))
    ensures line + end + rest <= line + nl + rendered <==> rest == "" && end <= nl
  {
    var a, b := line + end + rest, line + nl + rendered;
    assert a[|line|] == end[0] && b[|line|] == nl[0];
    assert |rest| > 0 ==> a[|line| + 1] == rest[0];
    assert |nl| == 2 ==> b[|line| + 1] == '\n';
    if rest == "" && end <= nl {
      assert a == b[..|line| + 1];
    }
  }

  lemma SameFirstPiece(piece: string, rest: string, rendered: string)
    ensures piece + rest <= piece + rendered <==> rest <= rendered
  {
    var a, b := piece + rest, piece + rendered;
    if a <= b {
      assert a[|piece|..] == rest && b[|piece|..] == rendered;
      assert b[|piece|..][..|rest|] == b[..|a|][|piece|..];
    }
    if rest <= rendered {
      assert b[..|a|] == piece + rendered[..|rest|];
    }
  }

  lemma EndsIntoFirst(end: string, rest: string, nl: string)
    ensures EndsInto([end] + Ends(rest), nl) <==>
              if rest == "" then end <= nl else end == nl && EndsInto(Ends(rest), nl)
  {
    var ends := [end] + Ends(rest);
    assert forall j :: 0 <= j < |Ends(rest)| ==> ends[j + 1] == Ends(rest)[j];
    assert rest != "" ==> |SplitLines(rest)| > 0;
    if rest != "" && EndsInto(ends, nl) {
      assert forall j :: 0 <= j < |Ends(rest)| - 1 ==> Ends(rest)[j] == ends[j + 1];
      assert ends[0] == end;
    }
  }

  lemma FirstNoLonger(end: string, ends: seq<string>, nl: string)
    requires NoLonger([end] + ends, nl)
    ensures |end| <= |nl| && NoLonger(ends, nl)
  {
    var all := [end] + ends;
    assert all[0] == end && forall j :: 0 <= j < |ends| ==> ends[j] == all[j + 1];
  }

  /** A text begins what its lines render to exactly if all its lines end alike, the last perhaps cut short. */
  lemma {:induction false} BeginsIff(s: string, nl: string)
    requires nl in {"\n", "\r\n"} && NoLonger(Ends(s), nl)
    ensures s <= Render(SplitLines(s), nl) <==> EndsInto(Ends(s), nl)
    decreases |s|
  {
    if s != "" {
      var n := LineEnd(s);
      if n < |s| {
        var k := BreakLength(s[n..]);
        FirstLine(s, n, k);
        FirstNoLonger(s[n..][..k], Ends(s[n + k..]), nl);
        BeginsIff(s[n + k..], nl);
        BeginsStep(s, n, k, nl);
      } else {
        assert Render([s], nl) == s + nl + Render([], nl);
      }
    }
  }

  lemma RenderFirst(line: string, lines: seq<string>, nl: string)
    ensures Render([line] + lines, nl) == line + nl + Render(lines, nl)
  {
    assert ([line] + lines)[1..] == lines;
  }

  lemma BeginsStep(s: string, n: nat, k: nat, nl: string)
    requires nl in {"\n", "\r\n"} && s != "" && n == LineEnd(s) < |s| && k == BreakLength(s[n..]) && k <= |nl|
    requires s[n + k..] <= Render(SplitLines(s[n + k..]), nl) <==> EndsInto(Ends(s[n + k..]), nl)
    ensures s <= Render(SplitLines(s), nl) <==> EndsInto(Ends(s), nl)
  {
    var line, end, rest := s[..n], s[n..][..k], s[n + k..];
    var rendered := Render(SplitLines(rest), nl);
    FirstLine(s, n, k);
    ThreePieces(s, n, k);
    RenderFirst(line, SplitLines(rest), nl);
    EndsIntoFirst(end, rest, nl);
    ShortEnd(s, n, k, nl);
    FirstPieces(line, end, rest, nl, rendered);
  }

  /** A first line that ends otherwise is ended by one character, and not by half of `\r\n`. */
  predicate LoneBreak(end: string, rest: string) {
    |end| == 1 && (end == "\r" ==> !("\n" <= rest))
  }

  lemma FirstPieces(line: string, end: string, rest: string, nl: string, rendered: string)
    requires nl in {"\n", "\r\n"} && (end == nl || LoneBreak(end, rest))
    ensures line + end + rest <= line + nl + rendered <==>
              if end == nl then rest <= rendered else rest == "" && end <= nl
  {
    if end == nl {
      SameFirstPiece(line + nl, rest, rendered);
    } else {
      FirstPieceIff(line, end, rest, nl, rendered);
    }
  }

  lemma ShortEnd(s: string, n: nat, k: nat, nl: string)
    requires n < |s| && nl in {"\n", "\r\n"} && k == BreakLength(s[n..]) && k <= |nl|
    ensures s[n..][..k] == nl || LoneBreak(s[n..][..k], s[n + k..])
  {
    var t := s[n..];
    assert t[k..] == s[n + k..];
    assert |t| > 1 ==> t[1..][0] == t[1];
    assert "\r\n" <= t <==> |t| > 1 && t[0] == '\r' && t[1] == '\n';
  }

  lemma PrefixOfLonger(a: string, b: string, more: string)
    requires |a| <= |b|
    ensures a <= b + more <==> a <= b
  {
    if a <= b + more { assert (b + more)[..|a|] == b[..|a|]; }
  }

  /**
   * Adding a site keeps every byte of the old text, as the beginning of the new one, exactly if all its lines end
   * alike, but for a last one that may be cut short.
   */
  lemma OldTextStaysIff(f: Format, raw: string, fqdn: string, d: Decision, source: string)
    requires Position(f, SplitLines(raw), fqdn) == |SplitLines(raw)|
    ensures raw <= Recorded(f, raw, fqdn, d, source) <==> EndsInto(Ends(raw), Newline(raw))
  {
    var lines, nl := SplitLines(raw), Newline(raw);
    AppendedText(f, raw, fqdn, d, source);
    EndsNoLonger(raw);
    GlueSplit(raw);
    GlueNoLonger(lines, Ends(raw), nl);
    BeginsIff(raw, nl);
    if raw != "" { PrefixOfLonger(raw, Render(lines, nl), f.dump(NewPayload(fqdn, d, source)) + nl); }
  }

  // ------------------------------------------------- uniform and mixed files

  /** The canonical files are those with every line ended alike. */
  lemma CanonicalEnds(raw: string)
    ensures Canonical(raw) <==> AllEnd(Ends(raw), Newline(raw))
  {
    CanonicalIff(raw);
    GlueSplit(raw);
    EndsNoLonger(raw);
    GlueIsRenderIff(SplitLines(raw), Ends(raw), Newline(raw));
  }

  /** Two lines with any two endings. */
  lemma TwoLines(a: string, x: string, b: string, y: string)
    requires BreakFree(a) && BreakFree(b) && x in {"\n", "\r\n"} && y in {"\n", "\r\n"}
    ensures var raw := a + x + (b + y); SplitLines(raw) == [a, b] && Ends(raw) == [x, y]
  {
    LineAndEnd(a, x, b + y);
    OneLine(b, y);
  }

  lemma OneLine(b: string, y: string)
    requires BreakFree(b) && y in {"\n", "\r\n"}
    ensures SplitLines(b + y) == [b] && Ends(b + y) == [y]
  {
    LineAndEnd(b, y, "");
    assert b + y + "" == b + y;
  }

  lemma LineAndEnd(line: string, end: string, rest: string)
    requires BreakFree(line) && end in {"\n", "\r\n"}
    ensures SplitLines(line + end + rest) == [line] + SplitLines(rest)
    ensures Ends(line + end + rest) == [end] + Ends(rest)
  {
    var s, n := line + end + rest, |line|;
    LineEndOf(line, end, rest);
    assert s[n..] == end + rest && s[n] == end[0];
    assert BreakLength(s[n..]) == |end|;
    assert s[n..][..|end|] == end && s[..n] == line && s[n + |end|..] == rest;
    FirstLine(s, n, |end|);
  }

  lemma MixedLayout(f: Format, comment: string, line: string, fqdn: string)
    requires BreakFree(comment) && f.entry(comment).None? && BreakFree(line) && IsSite(f, line, fqdn)
    ensures var raw := comment + "\n" + (line + "\r\n");
            && SplitLines(raw) == [comment, line] && Ends(raw) == ["\n", "\r\n"] && Newline(raw) == "\r\n"
            && Position(f, SplitLines(raw), fqdn) == 1
  {
    var raw := comment + "\n" + (line + "\r\n");
    TwoLines(comment, "\n", line, "\r\n");
    SecondIsSite(f, comment, line, fqdn);
    HasPair(comment + "\n" + line, "");
    assert raw == comment + "\n" + line + "\r\n" + "";
  }

  /** In a file of mixed endings a relabel changes another line: the comment's ending here. */
  lemma MixedFileChanges(f: Format, comment: string, line: string, fqdn: string, d: Decision, source: string)
    requires BreakFree(comment) && f.entry(comment).None? && BreakFree(line) && IsSite(f, line, fqdn)
    ensures var raw := comment + "\n" + (line + "\r\n");
            && |SplitLines(raw)| == 2 && Position(f, SplitLines(raw), fqdn) == 1 && Ahead(raw, 1) == comment + "\n"
            && Behind(raw, 1) == ""
            && Recorded(f, raw, fqdn, d, source) == comment + "\r\n" + NewLine(f, raw, fqdn, d)
            && Recorded(f, raw, fqdn, d, source) != Ahead(raw, 1) + NewLine(f, raw, fqdn, d) + Behind(raw, 1)
  {
    var raw := comment + "\n" + (line + "\r\n");
    MixedLayout(f, comment, line, fqdn);
    TwoGlued(f, raw, comment, "\n", line, fqdn, d, source);
    OtherBytesStayIff(f, raw, fqdn, d, source);
    assert !OthersEnd(raw, 1) by { assert Ends(raw)[0] == "\n"; }
  }

  /** Yet the ending of the site's own line does not matter: this file is not canonical either. */
  lemma OwnEndingFree(f: Format, comment: string, line: string, fqdn: string, d: Decision, source: string)
    requires BreakFree(comment) && f.entry(comment).None? && BreakFree(line) && IsSite(f, line, fqdn)
    ensures var raw := comment + "\r\n" + (line + "\n");
            && !Canonical(raw) && |SplitLines(raw)| == 2 && Position(f, SplitLines(raw), fqdn) == 1
            && Recorded(f, raw, fqdn, d, source) == comment + "\r\n" + NewLine(f, raw, fqdn, d)
  {
    var raw := comment + "\r\n" + (line + "\n");
    TwoLines(comment, "\r\n", line, "\n");
    SecondIsSite(f, comment, line, fqdn);
    HasPair(comment, line + "\n");
    TwoGlued(f, raw, comment, "\r\n", line, fqdn, d, source);
    CanonicalEnds(raw);
    assert Ends(raw)[1] == "\n";
  }

  lemma SecondIsSite(f: Format, comment: string, line: string, fqdn: string)
    requires f.entry(comment).None? && IsSite(f, line, fqdn)
    ensures Position(f, [comment, line], fqdn) == 1
  {
    PositionIs(f, [comment, line], fqdn, 1);
  }

  lemma HasPair(head: string, tail: string)
    ensures Newline(head + "\r\n" + tail) == "\r\n"
  {
    assert OccursAt(head + "\r\n" + tail, "\r\n", |head|);
  }

  lemma TwoGlued(f: Format, raw: string, comment: string, end: string, line: string, fqdn: string, d: Decision,
                 source: string)
    requires SplitLines(raw) == [comment, line] && |Ends(raw)| == 2 && Ends(raw)[0] == end
    requires Newline(raw) == "\r\n" && Position(f, SplitLines(raw), fqdn) == 1
    ensures Ahead(raw, 1) == comment + end && Behind(raw, 1) == ""
    ensures Recorded(f, raw, fqdn, d, source) == comment + "\r\n" + NewLine(f, raw, fqdn, d)
  {
    RelabelledText(f, raw, fqdn, d, source);
    var lines := SplitLines(raw);
    assert lines[..1] == [comment] && Ends(raw)[..1] == [end] && lines[2..] == [] && Ends(raw)[2..] == [];
    GlueFirst(comment, end, [], []);
    assert [comment] + [] == [comment] && [end] + [] == [end] && comment + end + "" == comment + end;
    assert Render([comment], "\r\n") == comment + "\r\n" + Render([], "\r\n");
    assert comment + "\r\n" + "" == comment + "\r\n";
  }
}
