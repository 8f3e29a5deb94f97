/** Confusable skeletons (scoring/normalize.py). */
module Skeletons {
  import opened Wrappers
  import opened Text

  /** What the Unicode tables contribute: per-character folding, and punycode labels. */
  datatype Unicode = Unicode(lower: char -> string, strip: char -> string, punycode: string -> Option<string>)

  function Each(f: char -> string, s: string): string {
    if s == "" then "" else f(s[0]) + Each(f, s[1..])
  }

  /** `_CHAR_MAP`. */
  function CharMap(c: char): char {
    match c
    // Cyrillic
    case '\U{0430}' => 'a' case '\U{0432}' => 'b' case '\U{0441}' => 'c' case '\U{0501}' => 'd'
    case '\U{0435}' => 'e' case '\U{04BB}' => 'h' case '\U{0456}' => 'i' case '\U{0458}' => 'j'
    case '\U{043A}' => 'k' case '\U{04CF}' => 'l' case '\U{043C}' => 'm' case '\U{043F}' => 'n'
    case '\U{043E}' => 'o' case '\U{0440}' => 'p' case '\U{051B}' => 'q' case '\U{0433}' => 'r'
    case '\U{0455}' => 's' case '\U{0442}' => 't' case '\U{0446}' => 'u' case '\U{0475}' => 'v'
    case '\U{051D}' => 'w' case '\U{0445}' => 'x' case '\U{0443}' => 'y' case '\U{0290}' => 'z'
    // Greek
    case '\U{03B1}' => 'a' case '\U{03B2}' => 'b' case '\U{03B5}' => 'e' case '\U{03B9}' => 'i'
    case '\U{03BA}' => 'k' case '\U{03BD}' => 'v' case '\U{03BF}' => 'o' case '\U{03C1}' => 'p'
    case '\U{03C4}' => 't' case '\U{03C5}' => 'u' case '\U{03C7}' => 'x'
    // Latin extras
    case '\U{0131}' => 'i' case '\U{0142}' => 'l' case '\U{00F8}' => 'o' case '\U{0111}' => 'd'
    case '\U{0127}' => 'h' case '\U{0261}' => 'g'
    // Digits
    case '0' => 'o' case '1' => 'l' case '3' => 'e' case '5' => 's'
    case _ => c
  }

  /** `_CHAR_MAP | _LOOSE_CHAR_MAP`, applied in one pass. */
  function LooseCharMap(c: char): char {
    if c == 'i' then 'l' else CharMap(c)
  }

  function Translate(f: char -> char, s: string): (r: string)
    ensures |r| == |s| && forall k :: 0 <= k < |s| ==> r[k] == f(s[k])
  {
    seq(|s|, k requires 0 <= k < |s| => f(s[k]))
  }

  /** `decode_idna`: labels that fail to decode are kept as they are. */
  function DecodeIdna(u: Unicode, hostname: string): string {
    Join(".", DecodeLabels(u, Split(Each(u.lower, hostname), '.')))
  }

  function DecodeLabel(u: Unicode, l: string): string {
    if "xn--" <= l && u.punycode(l[4..]).Some? then u.punycode(l[4..]).value else l
  }

  function DecodeLabels(u: Unicode, labels: seq<string>): seq<string> {
    if labels == [] then [] else [DecodeLabel(u, labels[0])] + DecodeLabels(u, labels[1..])
  }

  /** `decode_idna` builds its list label by label. */
  method DecodeLabelsLoop(u: Unicode, labels: seq<string>) returns (decoded: seq<string>)
    ensures decoded == DecodeLabels(u, labels)
  {
    decoded := [];
    for i := 0 to |labels|
      invariant decoded + DecodeLabels(u, labels[i..]) == DecodeLabels(u, labels)
    {
      assert labels[i..][1..] == labels[i + 1..];
      decoded := decoded + [DecodeLabel(u, labels[i])];
    }
  }

  /** Diacritics off, then lower case. */
  function Fold(u: Unicode, decoded: string): string {
    Each(u.lower, Each(u.strip, decoded))
  }

  /** `skeleton` and `loose_skeleton` after IDNA decoding. */
  function SkeletonOf(u: Unicode, decoded: string): string {
    Translate(CharMap, Fold(u, decoded))
  }

  function Collapse(s: string): string {
    Replace(Replace(s, "rn", "m"), "vv", "w")
  }

  function LooseOf(u: Unicode, decoded: string): string {
    Collapse(Translate(LooseCharMap, Fold(u, decoded)))
  }

  function Skeleton(u: Unicode, hostname: string): string {
    SkeletonOf(u, DecodeIdna(u, hostname))
  }

  function LooseSkeleton(u: Unicode, hostname: string): string {
    LooseOf(u, DecodeIdna(u, hostname))
  }

  /** The loop over `_LOOSE_SEQ_MAP`. */
  method LooseSkeletonLoop(u: Unicode, hostname: string) returns (text: string)
    ensures text == LooseSkeleton(u, hostname)
  {
    text := Translate(LooseCharMap, Fold(u, DecodeIdna(u, hostname)));
    ghost var start := text;
    var sequences := [("rn", "m"), ("vv", "w")];
    for i := 0 to 2
      invariant i == 0 ==> text == start
      invariant i == 1 ==> text == Replace(start, "rn", "m")
      invariant i == 2 ==> text == Collapse(start)
    {
      text := Replace(text, sequences[i].0, sequences[i].1);
    }
  }

  // ------------------------------------------------- no collapsible pair is left

  lemma FirstOfReplace(s: string, a: char, b: char, c: char)
    requires s != ""
    ensures var out := Replace(s, [a, b], [c]); out != "" && (out[0] == c || out[0] == s[0])
  {
  }

  lemma {:induction false} PairGone(s: string, a: char, b: char, c: char, j: int)
    requires c != a && c != b
    ensures !OccursAt(Replace(s, [a, b], [c]), [a, b], j)
  {
    var out := Replace(s, [a, b], [c]);
    if |s| >= 2 && OccursAt(out, [a, b], j) {
      var d := if [a, b] <= s then 2 else 1;
      if j > 0 {
        PairGone(s[d..], a, b, c, j - 1);
        OccursInTail(out[0], Replace(s[d..], [a, b], [c]), [a, b], j);
      } else {
        assert out[0] == out[0..2][0] == a && out[1] == out[0..2][1] == b;
        FirstOfReplace(s[1..], a, b, c);
      }
    }
  }

  /** Replacing one pair by a third letter never brings two other letters together. */
  lemma {:induction false} PairStaysGone(s: string, a: char, b: char, c: char, x: char, y: char, j: int)
    requires c != x && c != y
    requires forall k :: !OccursAt(s, [x, y], k)
    ensures !OccursAt(Replace(s, [a, b], [c]), [x, y], j)
  {
    var out := Replace(s, [a, b], [c]);
    if |s| >= 2 && OccursAt(out, [x, y], j) {
      var d := if [a, b] <= s then 2 else 1;
      if j > 0 {
        forall k
          ensures !OccursAt(s[d..], [x, y], k)
        {
          if OccursAt(s[d..], [x, y], k) { OccursFurther(s, [x, y], d, k); }
        }
        PairStaysGone(s[d..], a, b, c, x, y, j - 1);
        OccursInTail(out[0], Replace(s[d..], [a, b], [c]), [x, y], j);
      } else {
        assert out[0] == out[0..2][0] == x && out[1] == out[0..2][1] == y;
        assert s[0..2] == [s[0], s[1]] && !OccursAt(s, [x, y], 0);
        FirstOfReplace(s[1..], a, b, c);
      }
    }
  }

  /** The two left-to-right passes leave neither "rn" nor "vv". */
  lemma LooseHasNoPairs(u: Unicode, decoded: string)
    ensures !Contains(LooseOf(u, decoded), "rn") && !Contains(LooseOf(u, decoded), "vv")
  {
    var s := Translate(LooseCharMap, Fold(u, decoded));
    CollapsedHasNoPairs(s);
  }

  lemma CollapsedHasNoPairs(s: string)
    ensures !Contains(Collapse(s), "rn") && !Contains(Collapse(s), "vv")
  {
    var mid := Replace(s, "rn", "m");
    assert "rn" == ['r', 'n'] && "m" == ['m'] && "vv" == ['v', 'v'] && "w" == ['w'];
    forall j { PairGone(s, 'r', 'n', 'm', j); }
    forall j { PairGone(mid, 'v', 'v', 'w', j); }
    forall j { PairStaysGone(mid, 'v', 'v', 'w', 'r', 'n', j); }
  }

  lemma {:induction false} NothingToReplace(s: string, pat: string, rep: string)
    requires pat != "" && !Contains(s, pat)
    ensures Replace(s, pat, rep) == s
  {
    if |s| >= |pat| {
      assert !OccursAt(s, pat, 0);
      forall k
        ensures !OccursAt(s[1..], pat, k)
      {
        if OccursAt(s[1..], pat, k) {
          assert s[k + 1..k + 1 + |pat|] == s[1..][k..k + |pat|];
          assert OccursAt(s, pat, k + 1);
        }
      }
      NothingToReplace(s[1..], pat, rep);
    }
  }

  lemma {:induction false} ReplaceMembers(s: string, pat: string, rep: string, c: char)
    requires pat != ""
    ensures c in Replace(s, pat, rep) ==> c in s || c in rep
    ensures c in s && c !in pat ==> c in Replace(s, pat, rep)
  {
    if |s| >= |pat| {
      if pat <= s {
        ReplaceMembers(s[|pat|..], pat, rep, c);
        assert s == pat + s[|pat|..];
      } else {
        ReplaceMembers(s[1..], pat, rep, c);
        assert s == [s[0]] + s[1..];
      }
    }
  }

  lemma CollapseMembers(s: string, c: char)
    ensures c in Collapse(s) ==> c in s || c == 'm' || c == 'w'
    ensures c == 'i' && c in s ==> c in Collapse(s)
  {
    ReplaceMembers(s, "rn", "m", c);
    ReplaceMembers(Replace(s, "rn", "m"), "vv", "w", c);
  }

  // ------------------------------------------------- idempotence and factoring

  /** A letter folds to itself, and folding twice is folding once. */
  ghost predicate FoldStable(u: Unicode) {
    && (forall c | 'a' <= c <= 'z' :: u.strip(c) == [c] && u.lower(c) == [c])
    && (forall t: string, c :: c in Fold(u, t) ==> u.strip(c) == [c] && u.lower(c) == [c])
  }

  /** No character other than "i" itself folds to "i". */
  predicate NoStrayI(u: Unicode, decoded: string) {
    forall c | c in Fold(u, decoded) :: CharMap(c) == 'i' ==> c == 'i'
  }

  lemma StrayIShows(u: Unicode, decoded: string)
    ensures 'i' in LooseOf(u, decoded) <==> !NoStrayI(u, decoded)
  {
    var folded := Fold(u, decoded);
    var t := Translate(LooseCharMap, folded);
    CollapseMembers(t, 'i');
    if 'i' in t {
      var k :| 0 <= k < |t| && t[k] == 'i';
      assert folded[k] in folded && CharMap(folded[k]) == 'i' && folded[k] != 'i';
    }
    if !NoStrayI(u, decoded) {
      var c :| c in folded && CharMap(c) == 'i' && c != 'i';
      var k :| 0 <= k < |folded| && folded[k] == c;
      assert t[k] == 'i';
    }
  }

  lemma {:induction false} EachFixed(f: char -> string, s: string)
    requires forall c :: c in s ==> f(c) == [c]
    ensures Each(f, s) == s
  {
    if s != "" {
      assert s == [s[0]] + s[1..];
      EachFixed(f, s[1..]);
    }
  }

  lemma LooseCharMapTarget(c: char)
    ensures LooseCharMap(c) == c || 'a' <= LooseCharMap(c) <= 'z'
    ensures CharMap(LooseCharMap(c)) == LooseCharMap(c)
  {
  }

  ghost predicate Fixed(u: Unicode, c: char) {
    u.strip(c) == [c] && u.lower(c) == [c] && CharMap(c) == c
  }

  lemma LooseCharIsFixed(u: Unicode, decoded: string, k: nat)
    requires FoldStable(u) && k < |Fold(u, decoded)|
    ensures Fixed(u, LooseCharMap(Fold(u, decoded)[k]))
  {
    LooseCharMapTarget(Fold(u, decoded)[k]);
    assert Fold(u, decoded)[k] in Fold(u, decoded);
  }

  /** Every character of a loose skeleton folds to itself and, but for a stray "i", maps to itself. */
  lemma LooseCharsAreFixed(u: Unicode, decoded: string)
    requires FoldStable(u)
    ensures forall c :: c in LooseOf(u, decoded) ==> Fixed(u, c)
  {
    var t := Translate(LooseCharMap, Fold(u, decoded));
    forall c | c in LooseOf(u, decoded)
      ensures Fixed(u, c)
    {
      CollapseMembers(t, c);
      if c in t {
        var k :| 0 <= k < |t| && t[k] == c;
        LooseCharIsFixed(u, decoded, k);
      } else {
        LooseCharMapTarget(c);
      }
    }
  }

  lemma MapsToItself(u: Unicode, s: string)
    requires 'i' !in s && forall c :: c in s ==> Fixed(u, c)
    ensures Translate(LooseCharMap, s) == s
  {
    forall k | 0 <= k < |s| ensures LooseCharMap(s[k]) == s[k] {
      assert s[k] in s;
    }
  }

  lemma FoldsToItself(u: Unicode, s: string)
    requires forall c :: c in s ==> Fixed(u, c)
    ensures Fold(u, s) == s
  {
    EachFixed(u.strip, s);
    EachFixed(u.lower, s);
  }

  /** Applying the loose skeleton again changes nothing exactly when nothing but "i" folded to "i". */
  lemma LooseIdempotentIff(u: Unicode, decoded: string)
    requires FoldStable(u)
    ensures LooseOf(u, LooseOf(u, decoded)) == LooseOf(u, decoded) <==> NoStrayI(u, decoded)
  {
    var once := LooseOf(u, decoded);
    LooseCharsAreFixed(u, decoded);
    FoldsToItself(u, once);
    StrayIShows(u, decoded);
    StrayIShows(u, once);
    if NoStrayI(u, decoded) {
      MapsToItself(u, once);
      LooseHasNoPairs(u, decoded);
      NothingToReplace(once, "rn", "m");
      NothingToReplace(once, "vv", "w");
    }
  }

  /** The loose skeleton computed from the skeleton alone. */
  function LooseFromSkeleton(sk: string): string {
    Collapse(Translate((c: char) => if c == 'i' then 'l' else c, sk))
  }

  /** The loose skeleton is a function of the skeleton exactly when nothing but "i" folded to "i". */
  lemma LooseFactorsIff(u: Unicode, decoded: string)
    ensures LooseOf(u, decoded) == LooseFromSkeleton(SkeletonOf(u, decoded)) <==> NoStrayI(u, decoded)
  {
    var folded := Fold(u, decoded);
    var viaSkeleton := Translate((c: char) => if c == 'i' then 'l' else c, SkeletonOf(u, decoded));
    StrayIShows(u, decoded);
    CollapseMembers(viaSkeleton, 'i');
    if NoStrayI(u, decoded) {
      var t := Translate(LooseCharMap, folded);
      forall k | 0 <= k < |folded|
        ensures t[k] == viaSkeleton[k]
      {
        assert folded[k] in folded;
      }
      assert t == viaSkeleton;
    }
  }

  /** Cyrillic, Greek and dotless i share the skeleton of "i" but not its loose skeleton. */
  lemma StrayICounterexample(u: Unicode, c: char)
    requires FoldStable(u) && u.strip(c) == [c] && u.lower(c) == [c]
    requires c in {'\U{0456}', '\U{03B9}', '\U{0131}'}
    ensures SkeletonOf(u, [c]) == SkeletonOf(u, "i") && LooseOf(u, [c]) != LooseOf(u, "i")
    ensures LooseOf(u, LooseOf(u, [c])) != LooseOf(u, [c])
  {
    EachFixed(u.strip, [c]);
    EachFixed(u.lower, [c]);
    EachFixed(u.strip, "i");
    EachFixed(u.lower, "i");
    StrayIShows(u, [c]);
    StrayIShows(u, "i");
    StrayIsNotSettled(u, c);
  }

  lemma StrayIsNotSettled(u: Unicode, c: char)
    requires FoldStable(u) && u.strip(c) == [c] && u.lower(c) == [c]
    requires c in {'\U{0456}', '\U{03B9}', '\U{0131}'}
    ensures LooseOf(u, LooseOf(u, [c])) != LooseOf(u, [c])
  {
    EachFixed(u.strip, [c]);
    EachFixed(u.lower, [c]);
    assert c in Fold(u, [c]);
    LooseIdempotentIff(u, [c]);
  }

  // ------------------------------------------------- tokens survive inside a label

  lemma {:induction false} EachConcat(f: char -> string, a: string, b: string)
    ensures Each(f, a + b) == Each(f, a) + Each(f, b)
  {
    if a == "" {
      assert a + b == b;
    } else {
      assert (a + b)[1..] == a[1..] + b;
      EachConcat(f, a[1..], b);
    }
  }

  lemma SkeletonOfConcat(u: Unicode, a: string, b: string)
    ensures SkeletonOf(u, a + b) == SkeletonOf(u, a) + SkeletonOf(u, b)
  {
    EachConcat(u.strip, a, b);
    EachConcat(u.lower, Each(u.strip, a), Each(u.strip, b));
  }

  /** One label that IDNA decoding leaves alone. */
  predicate RawLabel(u: Unicode, l: string) {
    var lowered := Each(u.lower, l);
    '.' !in lowered && !("xn--" <= lowered)
  }

  lemma RawLabelDecodes(u: Unicode, l: string)
    requires RawLabel(u, l)
    ensures DecodeIdna(u, l) == Each(u.lower, l)
  {
    var lowered := Each(u.lower, l);
    SplitWhole(lowered, '.');
    assert [lowered][1..] == [];
    assert DecodeLabels(u, [lowered]) == [lowered];
  }

  lemma SkeletonDistributes(u: Unicode, a: string, b: string)
    requires RawLabel(u, a) && RawLabel(u, b) && RawLabel(u, a + b)
    ensures Skeleton(u, a + b) == Skeleton(u, a) + Skeleton(u, b)
  {
    RawLabelDecodes(u, a);
    RawLabelDecodes(u, b);
    RawLabelDecodes(u, a + b);
    EachConcat(u.lower, a, b);
    SkeletonOfConcat(u, Each(u.lower, a), Each(u.lower, b));
  }

  /** A token written anywhere inside a raw label is still there in the label's skeleton. */
  lemma TokenSurvives(u: Unicode, host: string, token: string)
    requires RawLabel(u, host) && RawLabel(u, token) && Contains(host, token)
    ensures Contains(Skeleton(u, host), Skeleton(u, token))
  {
    var i :| 0 <= i <= |host| && OccursAt(host, token, i);
    var before, after := host[..i], host[i + |token|..];
    assert host == before + token + after;
    RawLabelDecodes(u, host);
    RawLabelDecodes(u, token);
    EachConcat(u.lower, before, token);
    EachConcat(u.lower, before + token, after);
    var b, t, a := Each(u.lower, before), Each(u.lower, token), Each(u.lower, after);
    SkeletonOfConcat(u, b, t);
    SkeletonOfConcat(u, b + t, a);
    var sk := Skeleton(u, host);
    assert sk == SkeletonOf(u, b) + Skeleton(u, token) + SkeletonOf(u, a);
    assert OccursAt(sk, Skeleton(u, token), |SkeletonOf(u, b)|);
  }
}
