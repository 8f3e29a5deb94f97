/** Negative tokens (scoring/scorer.py): blanking innocent words before looking for a brand token. */
module Negatives {
  import opened Wrappers
  import opened Text

  predicate Nonempty(negatives: seq<string>) {
    forall i :: 0 <= i < |negatives| ==> negatives[i] != ""
  }

  /** `_BrandMatcher.strip_negatives`: each negative token in turn becomes one space. */
  function StripNegatives(text: string, negatives: seq<string>): string
    requires Nonempty(negatives)
    decreases |negatives|
  {
    if negatives == [] then text else StripNegatives(Replace(text, negatives[0], " "), negatives[1..])
  }

  method StripNegativesLoop(text: string, negatives: seq<string>) returns (stripped: string)
    requires Nonempty(negatives)
    ensures stripped == StripNegatives(text, negatives)
  {
    stripped := text;
    for i := 0 to |negatives|
      invariant StripNegatives(stripped, negatives[i..]) == StripNegatives(text, negatives)
    {
      assert negatives[i..][1..] == negatives[i + 1..];
      stripped := Replace(stripped, negatives[i], " ");
    }
  }

  predicate IsLetter(c: char) { 'a' <= c <= 'z' }

  /** `_PART_SPLIT.split`: the runs of letters, empty ones at the ends included. */
  function Run(s: string): (n: nat)
    ensures n <= |s| && (forall i :: 0 <= i < n ==> IsLetter(s[i]))
    ensures n == |s| || !IsLetter(s[n])
  {
    if s == "" || !IsLetter(s[0]) then 0 else 1 + Run(s[1..])
  }

  function Gap(s: string): (n: nat)
    ensures n <= |s| && (forall i :: 0 <= i < n ==> !IsLetter(s[i]))
    ensures n == |s| || IsLetter(s[n])
  {
    if s == "" || IsLetter(s[0]) then 0 else 1 + Gap(s[1..])
  }

  function Parts(s: string): (p: seq<string>)
    decreases |s|
  {
    var n := Run(s);
    if n == |s| then [s] else [s[..n]] + Parts(s[n + Gap(s[n..])..])
  }

  /** `_BrandMatcher.contains_token`: long tokens anywhere, short ones as a whole part. */
  predicate ContainsToken(text: string, negatives: seq<string>, tokens: seq<string>, minLen: nat)
    requires Nonempty(negatives)
  {
    var stripped := StripNegatives(text, negatives);
    exists t | t in tokens :: if |t| >= minLen then Contains(stripped, t) else t in Parts(stripped)
  }

  /** `_BrandMatcher.matches_loose_word`: a whole part equals a loose token. */
  predicate MatchesLooseWord(looseText: string, negatives: seq<string>, looseTokens: seq<string>)
    requires Nonempty(negatives)
  {
    exists t | t in looseTokens :: t in Parts(StripNegatives(looseText, negatives))
  }

  /**
   * How the characters of `out` come from `text`: `from[j]` is the position of the character it
   * copies, or -1 for an inserted space.
   */
  ghost predicate Copies(text: string, out: string, from: seq<int>) {
    && |from| == |out|
    && forall j :: 0 <= j < |from| ==>
         && -1 <= from[j] < |text|
         && out[j] == if from[j] < 0 then ' ' else text[from[j]]
  }

  /** Copies keep their order; they are neighbours in the output exactly when they were in the input. */
  ghost predicate Orderly(from: seq<int>) {
    && (forall j, k :: 0 <= j < k < |from| && from[j] >= 0 && from[k] >= 0 ==> from[j] < from[k])
    && (forall j, k :: 0 <= j < |from| && 0 <= k < |from| && from[j] >= 0 && from[k] >= 0 ==>
          (k == j + 1 <==> from[k] == from[j] + 1))
    && (forall k :: 0 <= k < |from| && from[k] >= 0 ==> (k == 0 <==> from[k] == 0))
  }

  /** The trace of one `text.replace(pat, " ")`. */
  ghost function ReplaceTrace(text: string, pat: string): seq<int>
    requires pat != ""
  {
    if |text| < |pat| then seq(|text|, i => i)
    else if pat <= text then [-1] + Shift(ReplaceTrace(text[|pat|..], pat), |pat|)
    else [0] + Shift(ReplaceTrace(text[1..], pat), 1)
  }

  ghost function Shift(from: seq<int>, d: nat): (r: seq<int>)
    ensures |r| == |from|
    ensures forall j :: 0 <= j < |r| ==> r[j] == if from[j] < 0 then -1 else from[j] + d
  {
    seq(|from|, j requires 0 <= j < |from| => if from[j] < 0 then -1 else from[j] + d)
  }

  lemma Blanked(from: seq<int>, d: nat)
    requires Orderly(from) && d > 0
    ensures Orderly([-1] + Shift(from, d))
  {
    var r := [-1] + Shift(from, d);
    assert forall k :: 0 <= k < |r| && r[k] >= 0 ==> k > 0 && from[k - 1] >= 0 && r[k] == from[k - 1] + d;
  }

  lemma Kept(from: seq<int>)
    requires Orderly(from)
    ensures Orderly([0] + Shift(from, 1))
  {
    var r := [0] + Shift(from, 1);
    assert forall k :: 0 < k < |r| && r[k] >= 0 ==> from[k - 1] >= 0 && r[k] == from[k - 1] + 1;
  }

  lemma CopiesOnward(text: string, d: nat, out: string, from: seq<int>, c: char, p: int)
    requires 0 < d <= |text| && Copies(text[d..], out, from)
    requires (p == -1 && c == ' ') || (p == 0 && c == text[0])
    ensures Copies(text, [c] + out, [p] + Shift(from, d))
  {
    var r := [p] + Shift(from, d);
    forall j | 0 < j < |r|
      ensures -1 <= r[j] < |text| && ([c] + out)[j] == if r[j] < 0 then ' ' else text[r[j]]
    {
      assert r[j] == if from[j - 1] < 0 then -1 else from[j - 1] + d;
    }
  }

  lemma {:induction false} TraceOfReplace(text: string, pat: string)
    requires pat != ""
    ensures Copies(text, Replace(text, pat, " "), ReplaceTrace(text, pat))
    ensures Orderly(ReplaceTrace(text, pat))
  {
    if |text| < |pat| {
    } else {
      var d := if pat <= text then |pat| else 1;
      TraceOfReplace(text[d..], pat);
      var from := ReplaceTrace(text[d..], pat);
      var out := Replace(text[d..], pat, " ");
      if pat <= text {
        CopiesOnward(text, d, out, from, ' ', -1);
        Blanked(from, d);
        assert " " == [' '];
      } else {
        CopiesOnward(text, d, out, from, text[0], 0);
        Kept(from);
      }
    }
  }

  /** Whether one replacement removes position `i`. */
  ghost predicate RemovedBy(text: string, pat: string, i: int)
    requires pat != ""
  {
    if |text| < |pat| then false
    else if pat <= text then 0 <= i < |pat| || RemovedBy(text[|pat|..], pat, i - |pat|)
    else RemovedBy(text[1..], pat, i - 1)
  }

  /** Whether the loop removes position `i` of the original text, in whichever pass. */
  ghost predicate Removed(text: string, negatives: seq<string>, i: int)
    requires Nonempty(negatives)
    decreases |negatives|
  {
    if negatives == [] then false else
      var first := ReplaceTrace(text, negatives[0]);
      || RemovedBy(text, negatives[0], i)
      || exists p :: 0 <= p < |first| && first[p] == i && Removed(Replace(text, negatives[0], " "), negatives[1..], p)
  }

  lemma {:induction false} RemovedInRange(text: string, pat: string, i: int)
    requires pat != "" && RemovedBy(text, pat, i)
    ensures 0 <= i < |text|
  {
    var d := if pat <= text then |pat| else 1;
    if !(pat <= text && 0 <= i < |pat|) {
      RemovedInRange(text[d..], pat, i - d);
    }
  }

  lemma ShiftMember(tail: seq<int>, p: int, d: nat, i: int)
    requires i >= d > 0 && p <= 0 && forall k :: 0 <= k < |tail| ==> tail[k] >= -1
    ensures i in [p] + Shift(tail, d) <==> i - d in tail
  {
    var r := [p] + Shift(tail, d);
    if i in r {
      var k :| 0 <= k < |r| && r[k] == i;
      assert tail[k - 1] == i - d;
    }
    if i - d in tail {
      var k :| 0 <= k < |tail| && tail[k] == i - d;
      assert r[k + 1] == i;
    }
  }

  lemma HeadMember(text: string, pat: string, i: int)
    requires pat != "" && |pat| <= |text| && 0 <= i < (if pat <= text then |pat| else 1)
    ensures i in ReplaceTrace(text, pat) <==> !(pat <= text)
  {
    var d := if pat <= text then |pat| else 1;
    ShiftAvoids(ReplaceTrace(text[d..], pat), d, i);
    HeadThen(if pat <= text then -1 else 0, Shift(ReplaceTrace(text[d..], pat), d), i);
  }

  lemma ShiftAvoids(from: seq<int>, d: nat, i: int)
    requires 0 <= i < d
    ensures i !in Shift(from, d)
  {
  }

  lemma HeadThen(head: int, rest: seq<int>, i: int)
    requires i !in rest
    ensures i in [head] + rest <==> i == head
  {
    assert ([head] + rest)[0] == head;
  }

  lemma HeadRemoved(text: string, pat: string, i: int)
    requires pat != "" && |pat| <= |text| && 0 <= i < (if pat <= text then |pat| else 1)
    ensures RemovedBy(text, pat, i) <==> pat <= text
  {
    if !(pat <= text) && RemovedBy(text[1..], pat, i - 1) {
      RemovedInRange(text[1..], pat, i - 1);
    }
  }

  lemma TailRemoved(text: string, pat: string, d: nat, i: int)
    requires pat != "" && |pat| <= |text| && d == (if pat <= text then |pat| else 1) && i >= d
    ensures RemovedBy(text, pat, i) <==> RemovedBy(text[d..], pat, i - d)
  {
  }

  lemma TailMember(text: string, pat: string, d: nat, i: int)
    requires pat != "" && |pat| <= |text| && d == (if pat <= text then |pat| else 1) && i >= d
    ensures i in ReplaceTrace(text, pat) <==> i - d in ReplaceTrace(text[d..], pat)
  {
    TraceOfReplace(text[d..], pat);
    ShiftMember(ReplaceTrace(text[d..], pat), if pat <= text then -1 else 0, d, i);
  }

  lemma TailAlike(text: string, pat: string, d: nat, i: int)
    requires pat != "" && |pat| <= |text| && d == (if pat <= text then |pat| else 1) && i >= d
    requires i - d in ReplaceTrace(text[d..], pat) <==> !RemovedBy(text[d..], pat, i - d)
    ensures i in ReplaceTrace(text, pat) <==> !RemovedBy(text, pat, i)
  {
    TailMember(text, pat, d, i);
    TailRemoved(text, pat, d, i);
  }

  /** A position is copied exactly when it is not removed. */
  lemma {:induction false} CopiedOrRemoved(text: string, pat: string, i: int)
    requires pat != "" && 0 <= i < |text|
    ensures i in ReplaceTrace(text, pat) <==> !RemovedBy(text, pat, i)
  {
    if |text| < |pat| {
      assert ReplaceTrace(text, pat)[i] == i;
    } else {
      var d := if pat <= text then |pat| else 1;
      if i < d {
        HeadMember(text, pat, i);
        HeadRemoved(text, pat, i);
      } else {
        CopiedOrRemoved(text[d..], pat, i - d);
        TailAlike(text, pat, d, i);
      }
    }
  }

  /** The trace of the whole loop, in terms of the original text. */
  ghost function StripTrace(text: string, negatives: seq<string>): seq<int>
    requires Nonempty(negatives)
    decreases |negatives|
  {
    if negatives == [] then seq(|text|, i => i) else
      Compose(ReplaceTrace(text, negatives[0]), StripTrace(Replace(text, negatives[0], " "), negatives[1..]))
  }

  ghost function Compose(first: seq<int>, second: seq<int>): (r: seq<int>)
    ensures |r| == |second|
    ensures forall j :: 0 <= j < |r| ==> r[j] == if 0 <= second[j] < |first| then first[second[j]] else -1
  {
    seq(|second|, j requires 0 <= j < |second| => if 0 <= second[j] < |first| then first[second[j]] else -1)
  }

  lemma ComposeTraces(text: string, mid: string, out: string, first: seq<int>, second: seq<int>)
    requires Copies(text, mid, first) && Orderly(first) && Copies(mid, out, second) && Orderly(second)
    ensures Copies(text, out, Compose(first, second)) && Orderly(Compose(first, second))
  {
    var r := Compose(first, second);
    assert forall j :: 0 <= j < |r| && r[j] >= 0 ==> 0 <= second[j] < |first| && r[j] == first[second[j]];
  }

  lemma {:induction false} TraceOfStrip(text: string, negatives: seq<string>)
    requires Nonempty(negatives)
    ensures Copies(text, StripNegatives(text, negatives), StripTrace(text, negatives))
    ensures Orderly(StripTrace(text, negatives))
    decreases |negatives|
  {
    if negatives != [] {
      var mid := Replace(text, negatives[0], " ");
      TraceOfReplace(text, negatives[0]);
      TraceOfStrip(mid, negatives[1..]);
      ComposeTraces(text, mid, StripNegatives(text, negatives),
                    ReplaceTrace(text, negatives[0]), StripTrace(mid, negatives[1..]));
    }
  }

  lemma ComposeMember(first: seq<int>, second: seq<int>, p: nat)
    requires Orderly(first) && p < |first| && first[p] >= 0
    ensures first[p] in Compose(first, second) <==> p in second
  {
    var r, i := Compose(first, second), first[p];
    if p in second {
      var j :| 0 <= j < |second| && second[j] == p;
      assert r[j] == i;
    }
    if i in r {
      var j :| 0 <= j < |r| && r[j] == i;
      assert first[second[j]] == first[p] && second[j] == p;
    }
  }

  lemma {:induction false} StripCopiesOrRemoves(text: string, negatives: seq<string>, i: int)
    requires Nonempty(negatives) && 0 <= i < |text|
    ensures i in StripTrace(text, negatives) <==> !Removed(text, negatives, i)
    decreases |negatives|
  {
    if negatives == [] {
      assert StripTrace(text, negatives)[i] == i;
    } else {
      var mid := Replace(text, negatives[0], " ");
      var first, second := ReplaceTrace(text, negatives[0]), StripTrace(mid, negatives[1..]);
      TraceOfReplace(text, negatives[0]);
      CopiedOrRemoved(text, negatives[0], i);
      if i in first {
        var p :| 0 <= p < |first| && first[p] == i;
        assert forall q :: 0 <= q < |first| && first[q] == i ==> q == p;
        StripCopiesOrRemoves(mid, negatives[1..], p);
        ComposeMember(first, second, p);
      } else {
        var r := Compose(first, second);
        assert forall j :: 0 <= j < |r| && r[j] == i ==> first[second[j]] in first;
      }
    }
  }

  predicate SpaceFree(t: string) {
    forall i :: 0 <= i < |t| ==> t[i] != ' '
  }

  /** A space-free occurrence in the output is a verbatim copy of one stretch of the input. */
  lemma WindowIsCopied(text: string, out: string, from: seq<int>, t: string, j: int)
    requires Copies(text, out, from) && Orderly(from)
    requires t != "" && SpaceFree(t) && OccursAt(out, t, j)
    ensures from[j] >= 0 && forall k :: j <= k < j + |t| ==> from[k] == from[j] + (k - j)
    ensures OccursAt(text, t, from[j])
  {
    forall k | j <= k < j + |t|
      ensures from[k] >= 0 && out[k] == t[k - j]
    {
      assert out[j..j + |t|][k - j] == t[k - j];
    }
    var m := j;
    while m < j + |t| - 1
      invariant j <= m < j + |t|
      invariant forall k :: j <= k <= m ==> from[k] == from[j] + (k - j)
    {
      m := m + 1;
      assert from[m] == from[m - 1] + 1;
    }
    var i := from[j];
    assert from[m] == i + |t| - 1;
    forall k | 0 <= k < |t|
      ensures text[i..i + |t|][k] == t[k]
    {
      assert from[j + k] == i + k;
    }
  }

  /** And a stretch of the input no part of which is removed reaches the output in one piece. */
  lemma WindowSurvives(text: string, out: string, from: seq<int>, t: string, i: int) returns (j: int)
    requires Copies(text, out, from) && Orderly(from)
    requires t != "" && OccursAt(text, t, i) && forall k :: i <= k < i + |t| ==> k in from
    ensures OccursAt(out, t, j)
  {
    assert i in from;
    j :| 0 <= j < |from| && from[j] == i;
    var m := j;
    while m < j + |t| - 1
      invariant j <= m < j + |t| && m < |from|
      invariant forall k :: j <= k <= m ==> from[k] == i + (k - j)
    {
      assert from[m] == i + (m - j) && i + (m - j) + 1 in from;
      var next :| 0 <= next < |from| && from[next] == i + (m - j) + 1;
      assert next == m + 1;
      m := m + 1;
    }
    forall k | 0 <= k < |t|
      ensures out[j..j + |t|][k] == t[k]
    {
      assert from[j + k] == i + k;
      assert text[i..i + |t|][k] == t[k];
    }
  }

  /** One pass leaves no occurrence behind. */
  lemma {:induction false} ReplaceRemovesAll(text: string, pat: string, j: int)
    requires pat != "" && SpaceFree(pat)
    ensures !OccursAt(Replace(text, pat, " "), pat, j)
  {
    if OccursAt(Replace(text, pat, " "), pat, j) && |text| >= |pat| {
      var d := if pat <= text then |pat| else 1;
      if j > 0 {
        ReplaceRemovesAll(text[d..], pat, j - 1);
        OccursInTail(if pat <= text then ' ' else text[0], Replace(text[d..], pat, " "), pat, j);
      } else {
        TraceOfReplace(text, pat);
        WindowIsCopied(text, Replace(text, pat, " "), ReplaceTrace(text, pat), pat, j);
      }
    }
  }

  /** After the loop no negative token occurs: a later replacement never restores an earlier one. */
  lemma {:induction false} NegativesGone(text: string, negatives: seq<string>)
    requires Nonempty(negatives) && forall i :: 0 <= i < |negatives| ==> SpaceFree(negatives[i])
    ensures forall i :: 0 <= i < |negatives| ==> !Contains(StripNegatives(text, negatives), negatives[i])
    decreases |negatives|
  {
    if negatives != [] {
      var mid, out := Replace(text, negatives[0], " "), StripNegatives(text, negatives);
      NegativesGone(mid, negatives[1..]);
      if Contains(out, negatives[0]) {
        var j :| 0 <= j <= |out| && OccursAt(out, negatives[0], j);
        TraceOfStrip(mid, negatives[1..]);
        WindowIsCopied(mid, out, StripTrace(mid, negatives[1..]), negatives[0], j);
        ReplaceRemovesAll(text, negatives[0], StripTrace(mid, negatives[1..])[j]);
      }
      assert forall i :: 0 < i < |negatives| ==> negatives[i] == negatives[1..][i - 1];
    }
  }

  /** `t` occurs in `text` clear of every span the negative tokens remove. */
  ghost predicate OccursOutside(text: string, t: string, negatives: seq<string>)
    requires Nonempty(negatives)
  {
    exists i :: OccursAt(text, t, i) && forall k :: i <= k < i + |t| ==> !Removed(text, negatives, k)
  }

  /** Stripping neither invents a token nor hides one that no removed span touches. */
  lemma StrippingIsExact(text: string, negatives: seq<string>, t: string)
    requires Nonempty(negatives) && t != "" && SpaceFree(t)
    ensures Contains(StripNegatives(text, negatives), t) <==> OccursOutside(text, t, negatives)
  {
    var out, from := StripNegatives(text, negatives), StripTrace(text, negatives);
    TraceOfStrip(text, negatives);
    if Contains(out, t) {
      var j :| 0 <= j <= |out| && OccursAt(out, t, j);
      WindowIsCopied(text, out, from, t, j);
      forall k | from[j] <= k < from[j] + |t|
        ensures !Removed(text, negatives, k)
      {
        assert from[j + (k - from[j])] == k;
        StripCopiesOrRemoves(text, negatives, k);
      }
    }
    if OccursOutside(text, t, negatives) {
      var i :| OccursAt(text, t, i) && forall k :: i <= k < i + |t| ==> !Removed(text, negatives, k);
      forall k | i <= k < i + |t|
        ensures k in from
      {
        StripCopiesOrRemoves(text, negatives, k);
      }
      var j := WindowSurvives(text, out, from, t, i);
    }
  }

  lemma {:induction false} PartOccurs(s: string, t: string)
    requires t in Parts(s)
    ensures Contains(s, t)
    decreases |s|
  {
    var n := Run(s);
    if t == s[..n] {
      assert OccursAt(s, t, 0);
    } else {
      var m := n + Gap(s[n..]);
      var rest := s[m..];
      PartOccurs(rest, t);
      var i :| 0 <= i <= |rest| && OccursAt(rest, t, i);
      OccursFurther(s, t, m, i);
    }
  }

  /** A brand token is only ever reported where the original text has it, untouched by any negative token. */
  lemma TokenIsGenuine(text: string, negatives: seq<string>, tokens: seq<string>, minLen: nat)
    requires Nonempty(negatives) && Nonempty(tokens)
    requires forall i :: 0 <= i < |tokens| ==> SpaceFree(tokens[i])
    requires ContainsToken(text, negatives, tokens, minLen)
    ensures exists i :: 0 <= i < |tokens| && OccursOutside(text, tokens[i], negatives)
  {
    var stripped := StripNegatives(text, negatives);
    var t :| t in tokens && if |t| >= minLen then Contains(stripped, t) else t in Parts(stripped);
    if |t| < minLen {
      PartOccurs(stripped, t);
    }
    var i :| 0 <= i < |tokens| && tokens[i] == t;
    StrippingIsExact(text, negatives, tokens[i]);
  }

  /** The same for whole words under loose confusables. */
  lemma LooseWordIsGenuine(looseText: string, negatives: seq<string>, looseTokens: seq<string>)
    requires Nonempty(negatives) && Nonempty(looseTokens)
    requires forall i :: 0 <= i < |looseTokens| ==> SpaceFree(looseTokens[i])
    requires MatchesLooseWord(looseText, negatives, looseTokens)
    ensures exists i :: 0 <= i < |looseTokens| && OccursOutside(looseText, looseTokens[i], negatives)
  {
    var t :| t in looseTokens && t in Parts(StripNegatives(looseText, negatives));
    PartOccurs(StripNegatives(looseText, negatives), t);
    var i :| 0 <= i < |looseTokens| && looseTokens[i] == t;
    StrippingIsExact(looseText, negatives, looseTokens[i]);
  }
}
