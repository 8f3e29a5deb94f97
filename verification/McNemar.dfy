/** The exact paired test (eval/stats.py), against an explicit list of coin-flip outcomes. */
module McNemar {
  import opened Wrappers

  function Comb(n: nat, k: nat): nat {
    if k == 0 then 1 else if n == 0 then 0 else Comb(n - 1, k - 1) + Comb(n - 1, k)
  }

  function Pow2(n: nat): (p: nat)
    ensures p > 0
  {
    if n == 0 then 1 else 2 * Pow2(n - 1)
  }

  /** `sum(comb(n, k) for k in range(m + 1))`. */
  function Tail(n: nat, m: int): nat
    decreases if m < 0 then 0 else m + 1
  {
    if m < 0 then 0 else Tail(n, m - 1) + Comb(n, m)
  }

  /** `mcnemar_exact`, with exact division. */
  function McNemarExact(onlyFirstRight: nat, onlySecondRight: nat): real {
    var discordant := onlyFirstRight + onlySecondRight;
    if discordant == 0 then 1.0 else
      TwoSided(Tail(discordant, Min(onlyFirstRight, onlySecondRight)), Pow2(discordant))
  }

  /** `min(1.0, 2 * one_tail)`. */
  function TwoSided(tail: nat, total: nat): real
    requires total > 0
  {
    var oneTail := tail as real / total as real;
    if 2.0 * oneTail < 1.0 then 2.0 * oneTail else 1.0
  }

  function Fact(n: nat): nat {
    if n == 0 then 1 else n * Fact(n - 1)
  }

  lemma PascalAlgebra(l: int, r: int, fk: int, fd: int, k: int, d: int, f: int)
    requires l * (fk * (d * fd)) == f && r * ((k * fk) * fd) == f
    ensures (l + r) * ((k * fk) * (d * fd)) == (k + d) * f
  {
    assert l * ((k * fk) * (d * fd)) == k * (l * (fk * (d * fd)));
    assert r * ((k * fk) * (d * fd)) == d * (r * ((k * fk) * fd));
  }

  /** `Comb` is the binomial coefficient n! / (k! (n - k)!). */
  lemma {:induction false} CombIsBinomial(n: nat, k: nat)
    ensures k <= n ==> Comb(n, k) * (Fact(k) * Fact(n - k)) == Fact(n)
    ensures k > n ==> Comb(n, k) == 0
  {
    if n > 0 && k > 0 {
      CombIsBinomial(n - 1, k - 1);
      CombIsBinomial(n - 1, k);
      if k < n {
        PascalAlgebra(Comb(n - 1, k - 1), Comb(n - 1, k), Fact(k - 1), Fact(n - 1 - k), k, n - k, Fact(n - 1));
      } else if k == n {
        PascalAlgebra(Comb(n - 1, k - 1), 0, Fact(k - 1), 1, k, 0, 0);
        OneWayAlgebra(Comb(n - 1, k - 1), Fact(k - 1), k);
      }
    }
  }

  lemma OneWayAlgebra(l: int, f: int, k: int)
    ensures l * (k * f) == k * (l * f)
  {
  }

  // ------------------------------------------------- the outcomes

  /** All ways `n` disagreements can fall: true favours the first model. */
  function Outcomes(n: nat): seq<seq<bool>> {
    if n == 0 then [[]] else Prefixed(true, Outcomes(n - 1)) + Prefixed(false, Outcomes(n - 1))
  }

  function Prefixed(b: bool, xs: seq<seq<bool>>): (r: seq<seq<bool>>)
    ensures |r| == |xs| && forall i :: 0 <= i < |xs| ==> r[i] == [b] + xs[i]
  {
    seq(|xs|, i requires 0 <= i < |xs| => [b] + xs[i])
  }

  function Heads(x: seq<bool>): (h: nat)
    ensures h <= |x|
  {
    if x == [] then 0 else (if x[0] then 1 else 0) + Heads(x[1..])
  }

  lemma PrefixedDistinct(half: seq<seq<bool>>)
    requires Distinct(half)
    ensures Distinct(Prefixed(true, half) + Prefixed(false, half))
  {
    var all, m := Prefixed(true, half) + Prefixed(false, half), |half|;
    forall i, j | 0 <= i < j < |all|
      ensures all[i] != all[j]
    {
      var i', j' := if i < m then i else i - m, if j < m then j else j - m;
      assert all[i] == [i < m] + half[i'] && all[j] == [j < m] + half[j'];
      assert all[i][0] == (i < m) && all[j][0] == (j < m);
      assert all[i][1..] == half[i'] && all[j][1..] == half[j'];
    }
  }

  lemma PrefixedMember(half: seq<seq<bool>>, x: seq<bool>)
    ensures x in Prefixed(true, half) + Prefixed(false, half) <==> x != [] && x[1..] in half
  {
    var all, m := Prefixed(true, half) + Prefixed(false, half), |half|;
    if x != [] && x[1..] in half {
      var i :| 0 <= i < m && half[i] == x[1..];
      assert [x[0]] + x[1..] == x;
      assert all[if x[0] then i else m + i] == x;
    }
    if x in all {
      var i :| 0 <= i < |all| && all[i] == x;
      var i' := if i < m then i else i - m;
      assert x == [i < m] + half[i'] && x[1..] == half[i'];
    }
  }

  /** The list holds 2^n different outcomes, ... */
  lemma {:induction false} OutcomesDistinct(n: nat)
    ensures |Outcomes(n)| == Pow2(n) && Distinct(Outcomes(n))
  {
    if n > 0 {
      OutcomesDistinct(n - 1);
      PrefixedDistinct(Outcomes(n - 1));
    }
  }

  /** ... namely all those of length n. */
  lemma {:induction false} OutcomesComplete(n: nat, x: seq<bool>)
    ensures x in Outcomes(n) <==> |x| == n
  {
    if n > 0 {
      PrefixedMember(Outcomes(n - 1), x);
      if x != [] { OutcomesComplete(n - 1, x[1..]); }
    }
  }

  function Gap(x: seq<bool>): nat {
    var d := 2 * Heads(x) - |x|;
    if d < 0 then -d else d
  }

  function CountGap(xs: seq<seq<bool>>, d: nat): nat {
    if xs == [] then 0 else (if Gap(xs[0]) >= d then 1 else 0) + CountGap(xs[1..], d)
  }

  function CountAtMost(xs: seq<seq<bool>>, m: int): nat {
    if xs == [] then 0 else (if Heads(xs[0]) <= m then 1 else 0) + CountAtMost(xs[1..], m)
  }

  lemma {:induction false} CountAtMostConcat(a: seq<seq<bool>>, b: seq<seq<bool>>, m: int)
    ensures CountAtMost(a + b, m) == CountAtMost(a, m) + CountAtMost(b, m)
  {
    if a == [] {
      assert a + b == b;
    } else {
      assert (a + b)[1..] == a[1..] + b;
      CountAtMostConcat(a[1..], b, m);
    }
  }

  lemma {:induction false} CountAtMostPrefixed(b: bool, xs: seq<seq<bool>>, m: int)
    ensures CountAtMost(Prefixed(b, xs), m) == CountAtMost(xs, if b then m - 1 else m)
  {
    if xs != [] {
      assert Prefixed(b, xs)[1..] == Prefixed(b, xs[1..]);
      assert ([b] + xs[0])[1..] == xs[0];
      CountAtMostPrefixed(b, xs[1..], m);
    }
  }

  lemma CountAtMostStep(n: nat, m: int)
    requires n > 0
    ensures CountAtMost(Outcomes(n), m) == CountAtMost(Outcomes(n - 1), m - 1) + CountAtMost(Outcomes(n - 1), m)
  {
    var half := Outcomes(n - 1);
    CountAtMostConcat(Prefixed(true, half), Prefixed(false, half), m);
    CountAtMostPrefixed(true, half, m);
    CountAtMostPrefixed(false, half, m);
  }

  lemma {:induction false} TailStep(n: nat, m: int)
    requires n > 0
    ensures Tail(n, m) == Tail(n - 1, m - 1) + Tail(n - 1, m)
    decreases if m < 0 then 0 else m + 1
  {
    if m >= 0 {
      TailStep(n, m - 1);
    }
  }

  /** A tail of binomial coefficients counts the outcomes with at most that many heads. */
  lemma {:induction false} TailCounts(n: nat, m: int)
    ensures CountAtMost(Outcomes(n), m) == Tail(n, m)
    decreases n
  {
    if n == 0 {
      if m >= 0 { TailOfNothing(m); }
    } else {
      assert Tail(n, m) == CountAtMost(Outcomes(n - 1), m - 1) + CountAtMost(Outcomes(n - 1), m) by {
        TailCounts(n - 1, m - 1);
        TailCounts(n - 1, m);
        TailStep(n, m);
      }
      CountAtMostStep(n, m);
    }
  }

  lemma {:induction false} TailOfNothing(m: nat)
    ensures Tail(0, m) == 1
  {
    if m > 0 { TailOfNothing(m - 1); }
  }

  /** Flipping every coin: as many outcomes have at least n - m heads as have at most m. */
  lemma {:induction false} TailSymmetric(n: nat, m: int)
    ensures Tail(n, n - m - 1) + Tail(n, m) == Pow2(n)
    decreases n
  {
    if n == 0 {
      if m >= 0 { TailOfNothing(m); } else { TailOfNothing(-m - 1); }
    } else {
      TailStep(n, n - m - 1);
      TailStep(n, m);
      TailSymmetric(n - 1, m - 1);
      TailSymmetric(n - 1, m);
    }
  }

  lemma {:induction false} TailMonotone(n: nat, m: int, m': int)
    requires m <= m'
    ensures Tail(n, m) <= Tail(n, m')
    decreases m' - m
  {
    if m < m' { TailMonotone(n, m, m' - 1); }
  }

  lemma {:induction false} CombPositive(n: nat, k: nat)
    requires k <= n
    ensures Comb(n, k) > 0
  {
    if k > 0 { CombPositive(n - 1, k - 1); }
  }

  /** Counting by gap is counting both tails. */
  lemma {:induction false} GapIsTwoTails(xs: seq<seq<bool>>, n: nat, low: nat, high: nat)
    requires low < high && low + high == n
    requires forall i :: 0 <= i < |xs| ==> |xs[i]| == n
    ensures CountGap(xs, high - low) == CountAtMost(xs, low) + (|xs| - CountAtMost(xs, high - 1))
  {
    if xs != [] {
      GapIsTwoTails(xs[1..], n, low, high);
      var h := Heads(xs[0]);
      assert Gap(xs[0]) >= high - low <==> h <= low || h >= high;
    }
  }

  lemma {:induction false} GapZero(xs: seq<seq<bool>>)
    ensures CountGap(xs, 0) == |xs|
  {
    if xs != [] { GapZero(xs[1..]); }
  }

  lemma Lopsided(low: nat, high: nat)
    requires low < high
    ensures CountGap(Outcomes(low + high), high - low) == 2 * Tail(low + high, low)
  {
    var n := low + high;
    var xs := Outcomes(n);
    OutcomesDistinct(n);
    forall i | 0 <= i < |xs| ensures |xs[i]| == n {
      OutcomesComplete(n, xs[i]);
    }
    assert CountAtMost(xs, low) == Tail(n, low) by { TailCounts(n, low); }
    assert CountAtMost(xs, high - 1) == Tail(n, high - 1) by { TailCounts(n, high - 1); }
    GapIsTwoTails(xs, n, low, high);
    TailSymmetric(n, low);
  }

  /** Below an even split, both tails together stay short of everything. */
  lemma TailsFit(low: nat, high: nat)
    requires low < high
    ensures 2 * Tail(low + high, low) <= Pow2(low + high)
    ensures 2 * Tail(low + high, low) == Pow2(low + high) <==> high == low + 1
  {
    var n := low + high;
    TailSymmetric(n, low);
    assert n - low - 1 == high - 1;
    if high > low + 1 {
      TailMonotone(n, low + 1, high - 1);
      CombPositive(n, low + 1);
    }
  }

  lemma Scale(x: real, y: real, t: real)
    requires t > 0.0
    ensures x < y <==> x * t < y * t
  {
  }

  /** The p-value times the number of outcomes, without fractions. */
  lemma WholeCount(tail: nat, total: nat)
    requires total > 0
    ensures TwoSided(tail, total) * total as real == (if 2 * tail < total then 2 * tail else total) as real
  {
    var x, t := tail as real / total as real, total as real;
    Quotient(tail, total);
    CappedProduct(x, t, tail, total);
  }

  lemma Quotient(tail: nat, total: nat)
    requires total > 0
    ensures (tail as real / total as real) * total as real == tail as real
  {
  }

  lemma CappedProduct(x: real, t: real, tail: nat, total: nat)
    requires t > 0.0 && t == total as real && x * t == tail as real
    ensures (if 2.0 * x < 1.0 then 2.0 * x else 1.0) * t == (if 2 * tail < total then 2 * tail else total) as real
  {
    assert (2.0 * x) * t == 2.0 * (x * t);
    Scale(2.0 * x, 1.0, t);
  }

  lemma OneMeansHalf(tail: nat, total: nat)
    requires total > 0
    ensures TwoSided(tail, total) <= 1.0 && (TwoSided(tail, total) == 1.0 <==> 2 * tail >= total)
  {
    var p, t := TwoSided(tail, total), total as real;
    WholeCount(tail, total);
    Scale(p, 1.0, t);
    assert (2 * tail) as real < total as real <==> 2 * tail < total;
    assert p < 1.0 <==> 2 * tail < total;
  }

  lemma MoreTailMeansMore(tail: nat, tail': nat, total: nat)
    requires total > 0 && tail < tail' && 2 * tail < total
    ensures TwoSided(tail, total) < TwoSided(tail', total)
  {
    WholeCount(tail, total);
    WholeCount(tail', total);
    SmallerProduct(TwoSided(tail, total), TwoSided(tail', total), total as real, 2 * tail,
                   if 2 * tail' < total then 2 * tail' else total);
  }

  lemma SmallerProduct(p: real, q: real, t: real, a: nat, b: nat)
    requires t > 0.0 && p * t == a as real && q * t == b as real && a < b
    ensures p < q
  {
    Scale(p, q, t);
    assert p * t < q * t;
  }

  lemma NoDisagreement()
    ensures McNemarExact(0, 0) == TwoSided(Tail(0, 0), Pow2(0))
  {
    TailOfNothing(0);
    OneMeansHalf(1, 1);
  }

  lemma IsTwoSided(a: nat, b: nat)
    ensures McNemarExact(a, b) == TwoSided(Tail(a + b, Min(a, b)), Pow2(a + b))
  {
    if a + b == 0 { NoDisagreement(); }
  }

  /** `p` is the fraction count / total. */
  ghost predicate IsShare(p: real, count: nat, total: nat) {
    p * total as real == count as real
  }

  /**
   * The p-value is exactly the share of the 2^n equally likely outcomes at least as lopsided as the
   * split observed; so the cap at 1 never hides anything.
   */
  lemma ExactPValue(a: nat, b: nat)
    ensures IsShare(McNemarExact(a, b), CountGap(Outcomes(a + b), if a < b then b - a else a - b), Pow2(a + b))
  {
    IsTwoSided(a, b);
    CountOf(a, b);
    ShareOfCount(McNemarExact(a, b), Tail(a + b, Min(a, b)), Pow2(a + b),
                 CountGap(Outcomes(a + b), if a < b then b - a else a - b));
  }

  lemma ShareOfCount(p: real, tail: nat, total: nat, count: nat)
    requires total > 0 && p == TwoSided(tail, total)
    requires count == if 2 * tail < total then 2 * tail else total
    ensures IsShare(p, count, total)
  {
    WholeCount(tail, total);
  }

  lemma CountOfSplit(low: nat, high: nat)
    requires low < high
    ensures var twice, total := 2 * Tail(low + high, low), Pow2(low + high);
            CountGap(Outcomes(low + high), high - low) == if twice < total then twice else total
  {
    Lopsided(low, high);
    TailsFit(low, high);
  }

  lemma CountOfOrdered(low: nat, high: nat)
    requires low <= high
    ensures var twice, total := 2 * Tail(low + high, low), Pow2(low + high);
            CountGap(Outcomes(low + high), high - low) == if twice < total then twice else total
  {
    if low < high {
      CountOfSplit(low, high);
    } else {
      EvenSplit(low);
    }
  }

  lemma CountOf(a: nat, b: nat)
    ensures var twice, total := 2 * Tail(a + b, Min(a, b)), Pow2(a + b);
            CountGap(Outcomes(a + b), if a < b then b - a else a - b) == if twice < total then twice else total
  {
    var low, high := Min(a, b), if a < b then b else a;
    assert low + high == a + b && high - low == if a < b then b - a else a - b;
    CountOfOrdered(low, high);
  }

  lemma EvenSplit(a: nat)
    ensures CountGap(Outcomes(a + a), 0) == Pow2(a + a)
    ensures 2 * Tail(a + a, a) >= Pow2(a + a)
  {
    GapZero(Outcomes(a + a));
    OutcomesDistinct(a + a);
    TailSymmetric(a + a, a);
    TailMonotone(a + a, a - 1, a);
  }

  /** It never exceeds 1, and is 1 exactly for the most even splits. */
  lemma OneIffEven(a: nat, b: nat)
    ensures McNemarExact(a, b) <= 1.0
    ensures McNemarExact(a, b) == 1.0 <==> -1 <= a - b <= 1
  {
    IsTwoSided(a, b);
    var n, low := a + b, Min(a, b);
    OneMeansHalf(Tail(n, low), Pow2(n));
    if a == b {
      EvenSplit(a);
    } else {
      TailsFit(low, n - low);
    }
  }

  /** For a fixed number of disagreements, a more lopsided split is always stronger evidence. */
  lemma StrictlyFalls(a: nat, b: nat)
    requires 0 < a <= b
    ensures McNemarExact(a - 1, b + 1) < McNemarExact(a, b)
    ensures McNemarExact(a, b) == McNemarExact(b, a)
  {
    var n := a + b;
    assert (a - 1) + (b + 1) == n;
    IsTwoSided(a - 1, b + 1);
    IsTwoSided(a, b);
    TailsFit(a - 1, b + 1);
    CombPositive(n, a);
    MoreTailMeansMore(Tail(n, a - 1), Tail(n, a), Pow2(n));
  }

  // ------------------------------------------------- discordant_counts

  /** Sites judged by both where exactly one model was right, and the sites judged by both. */
  function DiscordantCounts(first: map<string, bool>, second: map<string, bool>): (nat, nat, nat) {
    var shared := first.Keys * second.Keys;
    (|set s | s in shared && first[s] && !second[s]|, |set s | s in shared && second[s] && !first[s]|, |shared|)
  }

  /** Which model is called first does not matter, and the counts leave out exactly the agreements. */
  lemma DiscordantSymmetric(first: map<string, bool>, second: map<string, bool>)
    ensures var (f, s, n) := DiscordantCounts(first, second);
            && DiscordantCounts(second, first) == (s, f, n)
            && McNemarExact(f, s) == McNemarExact(s, f)
            && f + s + |set x | x in first && x in second && first[x] == second[x]| == n
  {
    var (f, s, n) := DiscordantCounts(first, second);
    SplitOfShared(first, second);
    SplitOfShared(second, first);
    assert first.Keys * second.Keys == second.Keys * first.Keys;
    PValueSymmetric(f, s);
  }

  lemma PValueSymmetric(a: nat, b: nat)
    ensures McNemarExact(a, b) == McNemarExact(b, a)
  {
  }

  lemma SplitOfShared(first: map<string, bool>, second: map<string, bool>)
    ensures var shared := first.Keys * second.Keys;
            |shared| == |set s | s in shared && first[s] && !second[s]|
                        + |set s | s in shared && second[s] && !first[s]|
                        + |set x | x in first && x in second && first[x] == second[x]|
    ensures (set s | s in first.Keys * second.Keys && first[s] && !second[s])
         == set s | s in second.Keys * first.Keys && first[s] && !second[s]
  {
    var shared := first.Keys * second.Keys;
    var onlyFirst := set s | s in shared && first[s] && !second[s];
    var onlySecond := set s | s in shared && second[s] && !first[s];
    var agree := set x | x in first && x in second && first[x] == second[x];
    assert shared == onlyFirst + onlySecond + agree;
    assert onlyFirst !! onlySecond && (onlyFirst + onlySecond) !! agree;
  }
}
