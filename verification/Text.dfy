/** The handful of string operations the pipeline leans on, with Python's semantics. */
module Text {
  import opened Wrappers

  /** The characters `str.splitlines` breaks a line at. */
  predicate IsBreak(c: char) {
    c in {'\n', '\r', '\U{0B}', '\U{0C}', '\U{1C}', '\U{1D}', '\U{1E}', '\U{85}', '\U{2028}', '\U{2029}'}
  }

  /** The characters `str.strip` removes. */
  predicate IsSpace(c: char) {
    || IsBreak(c)
    || c in {'\t', '\U{1F}', ' ', '\U{A0}', '\U{1680}', '\U{202F}', '\U{205F}', '\U{3000}'}
    || '\U{2000}' <= c <= '\U{200A}'
  }

  predicate BreakFree(s: string) {
    forall i :: 0 <= i < |s| ==> !IsBreak(s[i])
  }

  /** `not line.strip()`. */
  predicate Blank(s: string) {
    forall i :: 0 <= i < |s| ==> IsSpace(s[i])
  }

  function LStrip(s: string): (r: string)
    ensures r == "" || !IsSpace(r[0])
    ensures |r| <= |s| && s[|s| - |r|..] == r
  {
    if s == "" || !IsSpace(s[0]) then s else LStrip(s[1..])
  }

  function RStrip(s: string): (r: string)
    ensures r == "" || !IsSpace(r[|r| - 1])
    ensures r <= s
  {
    if s == "" || !IsSpace(s[|s| - 1]) then s else RStrip(s[..|s| - 1])
  }

  function Strip(s: string): string {
    RStrip(LStrip(s))
  }

  lemma StripClean(s: string)
    requires s != ""
    ensures Strip(s) == s <==> !IsSpace(s[0]) && !IsSpace(s[|s| - 1])
  {
    var l := LStrip(s);
    assert |RStrip(l)| <= |l|;
    if Strip(s) == s {
      assert |l| == |s| && l == s;
    }
  }

  /**
   * Lower case as far as ASCII patterns can tell: besides A-Z, the Kelvin sign is the one
   * character whose lower case is an ASCII letter.
   */
  function LowerChar(c: char): char {
    if 'A' <= c <= 'Z' then (c as int + 32) as char else if c == '\U{212A}' then 'k' else c
  }

  function Lower(s: string): (r: string)
    ensures |r| == |s| && forall k :: 0 <= k < |s| ==> r[k] == LowerChar(s[k])
  {
    seq(|s|, k requires 0 <= k < |s| => LowerChar(s[k]))
  }

  lemma LowerKeepsSpace(c: char)
    ensures IsSpace(LowerChar(c)) <==> IsSpace(c)
    ensures LowerChar(LowerChar(c)) == LowerChar(c)
  {
  }

  lemma LowerTwice(s: string)
    ensures Lower(Lower(s)) == Lower(s)
  {
    forall k | 0 <= k < |s| ensures LowerChar(Lower(s)[k]) == Lower(s)[k] { LowerKeepsSpace(s[k]); }
  }

  lemma StripLowered(s: string)
    ensures Strip(s) == s ==> Strip(Lower(s)) == Lower(s)
  {
    if s != "" {
      StripClean(s);
      LowerKeepsSpace(s[0]);
      LowerKeepsSpace(s[|s| - 1]);
      StripClean(Lower(s));
    } else {
      assert Lower(s) == "";
    }
  }

  /** Stripping and lower-casing once is enough. */
  lemma NormTwice(s: string)
    ensures Lower(Strip(Lower(Strip(s)))) == Lower(Strip(s))
  {
    StripTwice(s);
    StripLowered(Strip(s));
    LowerTwice(Strip(s));
  }

  lemma AsIs(s: string)
    requires s != "" && !IsSpace(s[0]) && !IsSpace(s[|s| - 1]) && Lower(s) == s
    ensures Lower(Strip(s)) == s
  {
    StripClean(s);
  }

  lemma LowerOne(c: char)
    requires LowerChar(c) == c
    ensures Lower([c]) == [c]
  {
  }

  lemma LetterA()
    ensures !IsSpace('a') && LowerChar('a') == 'a'
  {
  }

  lemma NormA()
    ensures Lower(Strip("a")) == "a"
  {
    LetterA();
    LowerOne('a');
    AsIs(['a']);
  }

  lemma StripTwice(s: string)
    ensures Strip(Strip(s)) == Strip(s)
  {
    var l, r := LStrip(s), Strip(s);
    if r != "" {
      assert r[0] == l[0];
      StripClean(r);
    }
  }

  predicate OccursAt(s: string, t: string, i: int) {
    0 <= i && i + |t| <= |s| && s[i..i + |t|] == t
  }

  predicate Contains(s: string, t: string) {
    exists i | 0 <= i <= |s| :: OccursAt(s, t, i)
  }

  lemma OccursFurther(s: string, t: string, m: nat, i: int)
    requires m <= |s| && OccursAt(s[m..], t, i)
    ensures OccursAt(s, t, m + i)
  {
    assert s[m..][i..i + |t|] == s[m + i..m + i + |t|];
  }

  lemma OccursInTail(c: char, rest: string, pat: string, j: int)
    requires OccursAt([c] + rest, pat, j) && j > 0
    ensures OccursAt(rest, pat, j - 1)
  {
    assert ([c] + rest)[j..j + |pat|] == rest[j - 1..j - 1 + |pat|];
  }

  /** `s.replace(pat, rep)`: leftmost, non-overlapping. */
  function Replace(s: string, pat: string, rep: string): string
    requires pat != ""
  {
    if |s| < |pat| then s
    else if pat <= s then rep + Replace(s[|pat|..], pat, rep)
    else [s[0]] + Replace(s[1..], pat, rep)
  }

  /** `s.split(c)` for a one-character separator. */
  function Split(s: string, c: char): (parts: seq<string>)
    ensures parts != []
    ensures forall p :: p in parts ==> c !in p
  {
    if s == "" then [""] else
      var rest := Split(s[1..], c);
      if s[0] == c then [""] + rest else [[s[0]] + rest[0]] + rest[1..]
  }

  lemma {:induction false} SplitWhole(s: string, c: char)
    requires c !in s
    ensures Split(s, c) == [s]
  {
    if s != "" {
      SplitWhole(s[1..], c);
      assert [s[0]] + s[1..] == s;
    }
  }

  lemma {:induction false} SplitFirst(head: string, c: char, rest: string)
    requires c !in head
    ensures Split(head + [c] + rest, c) == [head] + Split(rest, c)
  {
    if head == "" {
      assert head + [c] + rest == [c] + rest;
    } else {
      SplitFirst(head[1..], c, rest);
      assert (head + [c] + rest)[1..] == head[1..] + [c] + rest;
      assert [head[0]] + head[1..] == head;
    }
  }

  /** Splitting what was joined gives the parts back. */
  lemma {:induction false} SplitJoin(parts: seq<string>, c: char)
    requires parts != [] && forall p :: p in parts ==> c !in p
    ensures Split(Join([c], parts), c) == parts
  {
    if |parts| == 1 {
      SplitWhole(parts[0], c);
    } else {
      var rest := Join([c], parts[1..]);
      assert Split(rest, c) == parts[1..] by { SplitJoin(parts[1..], c); }
      assert Split(parts[0] + [c] + rest, c) == [parts[0]] + parts[1..] by { SplitFirst(parts[0], c, rest); }
    }
  }

  function Join(sep: string, lines: seq<string>): string {
    if lines == [] then "" else if |lines| == 1 then lines[0] else lines[0] + sep + Join(sep, lines[1..])
  }

  /** Every line followed by the line ending. */
  function Render(lines: seq<string>, nl: string): string {
    if lines == [] then "" else lines[0] + nl + Render(lines[1..], nl)
  }

  /** Where the first line of `s` ends. */
  function LineEnd(s: string): (n: nat)
    ensures n <= |s| && BreakFree(s[..n])
    ensures n == |s| || IsBreak(s[n])
  {
    if s == "" || IsBreak(s[0]) then 0 else
      var n := 1 + LineEnd(s[1..]);
      assert s[..n] == [s[0]] + s[1..][..n - 1];
      n
  }

  /** `s.splitlines()`; "\r\n" is one break. */
  function SplitLines(s: string): seq<string> {
    if s == "" then [] else
      var n := LineEnd(s);
      if n == |s| then [s]
      else [s[..n]] + SplitLines(s[n + (if "\r\n" <= s[n..] then 2 else 1)..])
  }

  lemma {:induction false} SplitLinesBreakFree(s: string)
    ensures forall l :: l in SplitLines(s) ==> BreakFree(l)
    decreases |s|
  {
    if s != "" {
      var n := LineEnd(s);
      if n == |s| {
        assert s[..n] == s;
      } else {
        SplitLinesBreakFree(s[n + (if "\r\n" <= s[n..] then 2 else 1)..]);
      }
    }
  }

  lemma LineEndOf(l: string, nl: string, rest: string)
    requires BreakFree(l) && nl in {"\n", "\r\n"}
    ensures LineEnd(l + nl + rest) == |l|
  {
    var s := l + nl + rest;
    var n := LineEnd(s);
    assert s[|l|] == nl[0];
    assert forall i :: 0 <= i < |l| ==> s[i] == l[i];
  }

  lemma SplitFirstLine(line: string, nl: string, rest: string)
    requires BreakFree(line) && nl in {"\n", "\r\n"}
    ensures SplitLines(line + nl + rest) == [line] + SplitLines(rest)
  {
    var s, n := line + nl + rest, |line|;
    LineEndOf(line, nl, rest);
    assert s[..n] == line && s[n..] == nl + rest;
    assert nl == "\n" ==> s[n] == '\n';
    assert s[n + |nl|..] == rest;
  }

  /** Splitting a rendered text gives its lines back. */
  lemma {:induction false} SplitRendered(lines: seq<string>, nl: string)
    requires nl in {"\n", "\r\n"}
    requires forall l :: l in lines ==> BreakFree(l)
    ensures SplitLines(Render(lines, nl)) == lines
  {
    if lines != [] {
      SplitFirstLine(lines[0], nl, Render(lines[1..], nl));
      SplitRendered(lines[1..], nl);
    }
  }

  lemma {:induction false} JoinIsRender(lines: seq<string>, nl: string)
    requires lines != []
    ensures Join(nl, lines) + nl == Render(lines, nl)
  {
    if |lines| > 1 {
      JoinIsRender(lines[1..], nl);
      assert Join(nl, lines) + nl == lines[0] + nl + (Join(nl, lines[1..]) + nl);
    }
  }

  lemma {:induction false} RenderConcat(a: seq<string>, b: seq<string>, nl: string)
    ensures Render(a + b, nl) == Render(a, nl) + Render(b, nl)
  {
    if a == [] {
      assert a + b == b;
    } else {
      assert (a + b)[1..] == a[1..] + b;
      RenderConcat(a[1..], b, nl);
    }
  }
}
