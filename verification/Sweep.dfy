/** The alert threshold swept over scored sites (eval/sweep.py), against the arm it governs (eval/arms.py). */
module Sweep {
  import opened Wrappers
  import opened Rounding
  import opened Metrics

  datatype Scored = Scored(expected: Label, score: real)

  datatype SweepPoint = SweepPoint(threshold: real, alerts: nat, truePositives: nat, falsePositives: int,
                                   falseNegatives: nat, precision: real, recall: real, f1: real, isConfigured: bool)

  /** The expected labels of the sites a threshold alerts on. */
  function AlertsAt(scored: seq<Scored>, threshold: real): seq<Label> {
    if scored == [] then [] else
      (if scored[0].score >= threshold then [scored[0].expected] else []) + AlertsAt(scored[1..], threshold)
  }

  function CountLabel(labels: seq<Label>, l: Label): nat {
    if labels == [] then 0 else (if labels[0] == l then 1 else 0) + CountLabel(labels[1..], l)
  }

  function Missed(scored: seq<Scored>, threshold: real): nat {
    if scored == [] then 0 else
      (if scored[0].expected == PHISHING && scored[0].score < threshold then 1 else 0) + Missed(scored[1..], threshold)
  }

  /** One pass of the loop in `sweep_thresholds`. */
  function PointAt(scored: seq<Scored>, configured: real, threshold: real): SweepPoint {
    var alerts := AlertsAt(scored, threshold);
    var tp, missed := CountLabel(alerts, PHISHING), Missed(scored, threshold);
    var precision, recall := Ratio(tp, |alerts|), Ratio(tp, tp + missed);
    SweepPoint(threshold, |alerts|, tp, |alerts| - tp, missed, precision, recall, F1(precision, recall),
               -0.000000001 < threshold - configured < 0.000000001)
  }

  function Inserted(x: real, sorted: seq<real>): seq<real> {
    if sorted == [] || x <= sorted[0] then [x] + sorted else [sorted[0]] + Inserted(x, sorted[1..])
  }

  function Sorted(xs: seq<real>): seq<real> {
    if xs == [] then [] else Inserted(xs[0], Sorted(xs[1..]))
  }

  ghost predicate Ascending(xs: seq<real>) {
    forall i, j :: 0 <= i < j < |xs| ==> xs[i] <= xs[j]
  }

  lemma {:induction false} InsertedHolds(x: real, sorted: seq<real>)
    ensures multiset(Inserted(x, sorted)) == multiset{x} + multiset(sorted)
  {
    if sorted != [] && x > sorted[0] {
      InsertedHolds(x, sorted[1..]);
      assert sorted == [sorted[0]] + sorted[1..];
    }
  }

  lemma {:induction false} InsertedAscends(x: real, sorted: seq<real>)
    requires Ascending(sorted)
    ensures Ascending(Inserted(x, sorted))
  {
    if sorted != [] && x > sorted[0] {
      var rest := sorted[1..];
      var tail := Inserted(x, rest);
      InsertedAscends(x, rest);
      InsertedHolds(x, rest);
      forall i | 0 <= i < |tail| ensures sorted[0] <= tail[i] {
        assert tail[i] in multiset(tail);
        if tail[i] != x {
          assert tail[i] in multiset(rest);
          var k :| 0 <= k < |rest| && rest[k] == tail[i];
          assert rest[k] == sorted[k + 1];
        }
      }
    }
  }

  lemma {:induction false} SortedAscends(xs: seq<real>)
    ensures Ascending(Sorted(xs)) && multiset(Sorted(xs)) == multiset(xs)
  {
    if xs != [] {
      SortedAscends(xs[1..]);
      InsertedAscends(xs[0], Sorted(xs[1..]));
      InsertedHolds(xs[0], Sorted(xs[1..]));
      assert xs == [xs[0]] + xs[1..];
    }
  }

  /** `sweep_thresholds`: the points come out in threshold order, one for each threshold asked for. */
  method SweepThresholds(scored: seq<Scored>, configured: real, thresholds: seq<real>) returns (points: seq<SweepPoint>)
    ensures |points| == |thresholds|
    ensures forall i :: 0 <= i < |points| ==> points[i] == PointAt(scored, configured, points[i].threshold)
    ensures forall i, j :: 0 <= i < j < |points| ==> points[i].threshold <= points[j].threshold
    ensures multiset(seq(|points|, i requires 0 <= i < |points| => points[i].threshold)) == multiset(thresholds)
  {
    var sorted := Sorted(thresholds);
    SortedAscends(thresholds);
    assert |sorted| == |multiset(sorted)| == |multiset(thresholds)| == |thresholds|;
    points := [];
    for i := 0 to |sorted|
      invariant |points| == i
      invariant forall k :: 0 <= k < i ==> points[k] == PointAt(scored, configured, sorted[k])
    {
      points := points + [PointAt(scored, configured, sorted[i])];
    }
    assert seq(|points|, i requires 0 <= i < |points| => points[i].threshold) == sorted;
  }

  // ------------------------------------------------- monotonicity

  /** Every phishing site is either alerted on or missed, whatever the threshold. */
  function Phishing(scored: seq<Scored>): nat {
    if scored == [] then 0 else (if scored[0].expected == PHISHING then 1 else 0) + Phishing(scored[1..])
  }

  lemma {:induction false} CountLabelConcat(a: seq<Label>, b: seq<Label>, l: Label)
    ensures CountLabel(a + b, l) == CountLabel(a, l) + CountLabel(b, l)
  {
    if a == [] {
      assert a + b == b;
    } else {
      assert (a + b)[1..] == a[1..] + b;
      CountLabelConcat(a[1..], b, l);
    }
  }

  lemma Step(scored: seq<Scored>, t: real)
    requires scored != []
    ensures |AlertsAt(scored, t)| == |AlertsAt(scored[1..], t)| + if scored[0].score >= t then 1 else 0
    ensures CountLabel(AlertsAt(scored, t), PHISHING) ==
              CountLabel(AlertsAt(scored[1..], t), PHISHING)
              + if scored[0].score >= t && scored[0].expected == PHISHING then 1 else 0
  {
    CountLabelConcat(if scored[0].score >= t then [scored[0].expected] else [], AlertsAt(scored[1..], t), PHISHING);
  }

  lemma {:induction false} CaughtOrMissed(scored: seq<Scored>, t: real)
    ensures CountLabel(AlertsAt(scored, t), PHISHING) + Missed(scored, t) == Phishing(scored)
  {
    if scored != [] {
      CaughtOrMissed(scored[1..], t);
      Step(scored, t);
    }
  }

  lemma {:induction false} CountsFall(scored: seq<Scored>, t: real, t': real)
    requires t <= t'
    ensures |AlertsAt(scored, t')| <= |AlertsAt(scored, t)|
    ensures CountLabel(AlertsAt(scored, t'), PHISHING) <= CountLabel(AlertsAt(scored, t), PHISHING)
  {
    if scored != [] {
      CountsFall(scored[1..], t, t');
      Step(scored, t);
      Step(scored, t');
    }
  }

  lemma DivideMonotone(a: nat, b: nat, n: nat)
    requires a <= b && n > 0
    ensures a as real / n as real <= b as real / n as real
  {
  }

  lemma RatioMonotone(a: nat, b: nat, n: nat)
    requires a <= b
    ensures Ratio(a, n) <= Ratio(b, n)
  {
    if n > 0 {
      DivideMonotone(a, b, n);
      RoundMonotone(a as real / n as real, b as real / n as real);
    }
  }

  /** Raising the threshold never adds an alert or a catch, never improves recall, and never loses count of a phish. */
  lemma SweepMonotone(scored: seq<Scored>, configured: real, t: real, t': real)
    requires t <= t'
    ensures var p, p' := PointAt(scored, configured, t), PointAt(scored, configured, t');
            && p'.alerts <= p.alerts
            && p'.truePositives <= p.truePositives
            && p'.recall <= p.recall
            && p'.truePositives + p'.falseNegatives == p.truePositives + p.falseNegatives == Phishing(scored)
  {
    CountsFall(scored, t, t');
    CaughtOrMissed(scored, t);
    CaughtOrMissed(scored, t');
    RatioMonotone(CountLabel(AlertsAt(scored, t'), PHISHING), CountLabel(AlertsAt(scored, t), PHISHING),
                  Phishing(scored));
  }

  // ------------------------------------------------- the arm behind the sweep

  /** `scoring_only_arm`: phishing at or above the threshold, legitimate below it. */
  function Predictions(scored: seq<Scored>, threshold: real): seq<Pair> {
    if scored == [] then [] else
      [Pair(scored[0].expected, if scored[0].score >= threshold then PHISHING else LEGITIMATE)]
      + Predictions(scored[1..], threshold)
  }

  method ScoringOnlyArm(sites: seq<(string, Label)>, scoreOf: string -> real, threshold: real, thresholds: seq<real>)
    returns (scored: seq<Scored>, report: Report, points: seq<SweepPoint>)
    ensures |scored| == |sites|
    ensures forall i :: 0 <= i < |sites| ==> scored[i] == Scored(sites[i].1, scoreOf(sites[i].0))
    ensures report.perClass.Keys == LabelsOf(Predictions(scored, threshold))
    ensures PHISHING in report.perClass ==>
              AgreesWith(PointAt(scored, threshold, threshold), report.perClass[PHISHING])
    ensures PHISHING !in report.perClass ==>
              var p := PointAt(scored, threshold, threshold); p.alerts == p.truePositives == p.falseNegatives == 0
    ensures forall i :: 0 <= i < |points| ==> points[i] == PointAt(scored, threshold, points[i].threshold)
  {
    scored := [];
    var pairs: seq<Pair> := [];
    for i := 0 to |sites|
      invariant |scored| == i && pairs == Predictions(scored, threshold)
      invariant forall k :: 0 <= k < i ==> scored[k] == Scored(sites[k].1, scoreOf(sites[k].0))
    {
      var score := scoreOf(sites[i].0);
      PredictionsAppend(scored, Scored(sites[i].1, score), threshold);
      pairs := pairs + [Pair(sites[i].1, if score >= threshold then PHISHING else LEGITIMATE)];
      scored := scored + [Scored(sites[i].1, score)];
    }
    report := ComputeMetrics(pairs);
    points := SweepThresholds(scored, threshold, thresholds);
    SweepMeetsMetrics(scored, threshold);
  }

  lemma {:induction false} PredictionsAppend(scored: seq<Scored>, s: Scored, t: real)
    ensures Predictions(scored + [s], t) ==
              Predictions(scored, t) + [Pair(s.expected, if s.score >= t then PHISHING else LEGITIMATE)]
  {
    if scored != [] {
      assert (scored + [s])[1..] == scored[1..] + [s];
      PredictionsAppend(scored[1..], s, t);
    }
  }

  ghost predicate AgreesWith(p: SweepPoint, c: ClassMetrics) {
    && p.alerts == c.predicted && p.truePositives == c.truePositives
    && p.falsePositives == c.falsePositives && p.falseNegatives == c.falseNegatives
    && p.precision == c.precision && p.recall == c.recall && p.f1 == c.f1
  }

  lemma {:induction false} SameCounts(scored: seq<Scored>, t: real)
    ensures var pairs := Predictions(scored, t);
            && |AlertsAt(scored, t)| == Predicted(pairs, PHISHING)
            && CountLabel(AlertsAt(scored, t), PHISHING) == Cell(pairs, PHISHING, PHISHING)
            && Phishing(scored) == Support(pairs, PHISHING)
  {
    if scored != [] {
      SameCounts(scored[1..], t);
      Step(scored, t);
      var pairs := Predictions(scored, t);
      assert pairs[1..] == Predictions(scored[1..], t);
      assert PHISHING.name[0] == 'p' && LEGITIMATE.name[0] == 'l';
    }
  }

  /** At the threshold in force, the sweep and the confusion matrix tell the same story about phishing. */
  lemma SweepMeetsMetrics(scored: seq<Scored>, t: real)
    ensures AgreesWith(PointAt(scored, t, t), ClassOf(Predictions(scored, t), PHISHING))
    ensures PointAt(scored, t, t).isConfigured
    ensures PHISHING !in LabelsOf(Predictions(scored, t)) ==>
              var p := PointAt(scored, t, t); p.alerts == p.truePositives == p.falseNegatives == 0
  {
    var pairs := Predictions(scored, t);
    SameCounts(scored, t);
    CaughtOrMissed(scored, t);
    if PHISHING !in LabelsOf(pairs) {
      Absent(pairs, PHISHING);
    }
  }

  lemma {:induction false} Absent(pairs: seq<Pair>, l: Label)
    requires l !in LabelsOf(pairs)
    ensures Predicted(pairs, l) == Support(pairs, l) == Cell(pairs, l, l) == 0
  {
    if pairs != [] {
      LabelsAreListed(pairs, 0);
      assert forall p :: p in pairs[1..] ==> p in pairs;
      assert LabelsOf(pairs[1..]) <= LabelsOf(pairs);
      Absent(pairs[1..], l);
    }
  }
}
