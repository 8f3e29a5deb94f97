/** Classification metrics and the threshold sweep (eval/metrics.py, eval/sweep.py, eval/arms.py). */
module Metrics {
  import opened Wrappers
  import opened Rounding

  datatype Label = Label(name: string)
  datatype Pair = Pair(expected: Label, predicted: Label)

  const PHISHING := Label("phishing")
  const LEGITIMATE := Label("legitimate")

  /** `_ratio`: zero rather than an error for an empty denominator. */
  function Ratio(numerator: nat, denominator: nat): real {
    if denominator == 0 then 0.0 else Round4(numerator as real / denominator as real)
  }

  function F1(precision: real, recall: real): real {
    if precision + recall == 0.0 then 0.0 else Round4(2.0 * precision * recall / (precision + recall))
  }

  // ------------------------------------------------- counts over a list of pairs

  function Cell(pairs: seq<Pair>, expected: Label, predicted: Label): nat {
    if pairs == [] then 0 else
      (if pairs[0] == Pair(expected, predicted) then 1 else 0) + Cell(pairs[1..], expected, predicted)
  }

  function Support(pairs: seq<Pair>, expected: Label): nat {
    if pairs == [] then 0 else (if pairs[0].expected == expected then 1 else 0) + Support(pairs[1..], expected)
  }

  function Predicted(pairs: seq<Pair>, predicted: Label): nat {
    if pairs == [] then 0 else (if pairs[0].predicted == predicted then 1 else 0) + Predicted(pairs[1..], predicted)
  }

  function LabelsOf(pairs: seq<Pair>): set<Label> {
    (set p | p in pairs :: p.expected) + (set p | p in pairs :: p.predicted)
  }

  lemma {:induction false} CellAppend(pairs: seq<Pair>, p: Pair, e: Label, d: Label)
    ensures Cell(pairs + [p], e, d) == Cell(pairs, e, d) + if p == Pair(e, d) then 1 else 0
  {
    if pairs != [] {
      assert (pairs + [p])[1..] == pairs[1..] + [p];
      CellAppend(pairs[1..], p, e, d);
    }
  }

  lemma {:induction false} MarginsAppend(pairs: seq<Pair>, p: Pair, l: Label)
    ensures Support(pairs + [p], l) == Support(pairs, l) + if p.expected == l then 1 else 0
    ensures Predicted(pairs + [p], l) == Predicted(pairs, l) + if p.predicted == l then 1 else 0
  {
    if pairs != [] {
      assert (pairs + [p])[1..] == pairs[1..] + [p];
      MarginsAppend(pairs[1..], p, l);
    }
  }

  // ------------------------------------------------- compute_metrics

  datatype ClassMetrics = ClassMetrics(support: nat, predicted: nat, truePositives: nat, falsePositives: int,
                                       falseNegatives: int, precision: real, recall: real, f1: real)

  datatype Report = Report(perClass: map<Label, ClassMetrics>, confusion: map<Pair, nat>,
                           total: nat, correct: nat, accuracy: real,
                           macroPrecision: real, macroRecall: real, macroF1: real)

  function ClassFrom(tp: nat, predicted: nat, support: nat): ClassMetrics {
    var precision, recall := Ratio(tp, predicted), Ratio(tp, support);
    ClassMetrics(support, predicted, tp, predicted - tp, support - tp, precision, recall, F1(precision, recall))
  }

  function ClassOf(pairs: seq<Pair>, l: Label): ClassMetrics {
    ClassFrom(Cell(pairs, l, l), Predicted(pairs, l), Support(pairs, l))
  }

  /** `confusion[expected][predicted]`, with a cell for every two labels. */
  ghost predicate IsConfusionOf(confusion: map<Pair, nat>, pairs: seq<Pair>, labels: set<Label>) {
    && (forall p: Pair :: p in confusion <==> p.expected in labels && p.predicted in labels)
    && (forall p :: p in confusion ==> confusion[p] == Cell(pairs, p.expected, p.predicted))
  }

  function Diagonal(pairs: seq<Pair>, labels: seq<Label>): nat {
    if labels == [] then 0 else Cell(pairs, labels[0], labels[0]) + Diagonal(pairs, labels[1..])
  }

  function Agreements(pairs: seq<Pair>): nat {
    if pairs == [] then 0 else (if pairs[0].expected == pairs[0].predicted then 1 else 0) + Agreements(pairs[1..])
  }

  lemma LabelsAreListed(pairs: seq<Pair>, i: nat)
    requires i < |pairs|
    ensures pairs[i].expected in LabelsOf(pairs) && pairs[i].predicted in LabelsOf(pairs)
  {
    assert pairs[i] in pairs;
  }

  lemma ConfusionStep(confusion: map<Pair, nat>, pairs: seq<Pair>, p: Pair, labels: set<Label>)
    requires IsConfusionOf(confusion, pairs, labels) && p in confusion
    ensures IsConfusionOf(confusion[p := confusion[p] + 1], pairs + [p], labels)
  {
    forall q: Pair { CellAppend(pairs, p, q.expected, q.predicted); }
  }

  ghost predicate IsMarginOf(supports: map<Label, nat>, predictions: map<Label, nat>, pairs: seq<Pair>,
                             labels: set<Label>) {
    && supports.Keys == labels && predictions.Keys == labels
    && forall l :: l in labels ==> supports[l] == Support(pairs, l) && predictions[l] == Predicted(pairs, l)
  }

  lemma MarginStep(supports: map<Label, nat>, predictions: map<Label, nat>, pairs: seq<Pair>, p: Pair,
                   labels: set<Label>)
    requires IsMarginOf(supports, predictions, pairs, labels) && p.expected in labels && p.predicted in labels
    ensures IsMarginOf(supports[p.expected := supports[p.expected] + 1],
                       predictions[p.predicted := predictions[p.predicted] + 1], pairs + [p], labels)
  {
    forall l { MarginsAppend(pairs, p, l); }
  }

  lemma NextPair(pairs: seq<Pair>, i: nat, labels: set<Label>)
    requires i < |pairs| && LabelsOf(pairs) <= labels
    ensures pairs[i].expected in labels && pairs[i].predicted in labels
    ensures pairs[..i + 1] == pairs[..i] + [pairs[i]]
  {
    LabelsAreListed(pairs, i);
  }

  /** The confusion dict is incremented in place, pair by pair, next to the two margins. */
  method CountPairs(pairs: seq<Pair>, labels: set<Label>)
    returns (confusion: map<Pair, nat>, supports: map<Label, nat>, predictions: map<Label, nat>)
    requires LabelsOf(pairs) <= labels
    ensures IsConfusionOf(confusion, pairs, labels) && IsMarginOf(supports, predictions, pairs, labels)
  {
    confusion, supports, predictions := Zeros(labels);
    for i := 0 to |pairs|
      invariant IsConfusionOf(confusion, pairs[..i], labels)
      invariant IsMarginOf(supports, predictions, pairs[..i], labels)
    {
      var p := pairs[i];
      NextPair(pairs, i, labels);
      confusion, supports, predictions := CountOne(confusion, supports, predictions, pairs[..i], p, labels);
    }
    assert pairs[..|pairs|] == pairs;
  }

  method Zeros(labels: set<Label>)
    returns (confusion: map<Pair, nat>, supports: map<Label, nat>, predictions: map<Label, nat>)
    ensures IsConfusionOf(confusion, [], labels) && IsMarginOf(supports, predictions, [], labels)
  {
    confusion := map e, d | e in labels && d in labels :: Pair(e, d) := 0;
    supports, predictions := map l | l in labels :: 0, map l | l in labels :: 0;
  }

  method CountOne(confusion0: map<Pair, nat>, supports0: map<Label, nat>, predictions0: map<Label, nat>,
                  ghost before: seq<Pair>, p: Pair, labels: set<Label>)
    returns (confusion: map<Pair, nat>, supports: map<Label, nat>, predictions: map<Label, nat>)
    requires IsConfusionOf(confusion0, before, labels) && IsMarginOf(supports0, predictions0, before, labels)
    requires p.expected in labels && p.predicted in labels
    ensures IsConfusionOf(confusion, before + [p], labels) && IsMarginOf(supports, predictions, before + [p], labels)
  {
    ConfusionStep(confusion0, before, p, labels);
    MarginStep(supports0, predictions0, before, p, labels);
    confusion := confusion0[p := confusion0[p] + 1];
    supports := supports0[p.expected := supports0[p.expected] + 1];
    predictions := predictions0[p.predicted := predictions0[p.predicted] + 1];
  }

  method ClassTable(ghost pairs: seq<Pair>, labels: seq<Label>, confusion: map<Pair, nat>,
                    supports: map<Label, nat>, predictions: map<Label, nat>)
    returns (perClass: map<Label, ClassMetrics>, correct: nat)
    requires IsConfusionOf(confusion, pairs, Elements(labels))
    requires IsMarginOf(supports, predictions, pairs, Elements(labels))
    ensures perClass.Keys == Elements(labels) && correct == Diagonal(pairs, labels)
    ensures forall l :: l in perClass ==> perClass[l] == ClassOf(pairs, l)
  {
    perClass, correct := map[], 0;
    for i := 0 to |labels|
      invariant perClass.Keys == Elements(labels[..i])
      invariant forall l :: l in perClass ==> perClass[l] == ClassOf(pairs, l)
      invariant correct + Diagonal(pairs, labels[i..]) == Diagonal(pairs, labels)
    {
      var l := labels[i];
      assert labels[..i + 1] == labels[..i] + [l] && labels[i..][1..] == labels[i + 1..];
      assert l in Elements(labels);
      perClass := perClass[l := ClassFrom(confusion[Pair(l, l)], predictions[l], supports[l])];
      correct := correct + confusion[Pair(l, l)];
    }
    assert labels[..|labels|] == labels;
  }

  // ------------------------------------------------- macro averages

  /** One figure of every class. */
  type Figure = ClassMetrics -> real

  const PRECISION: Figure := (m: ClassMetrics) => m.precision
  const RECALL: Figure := (m: ClassMetrics) => m.recall
  const F_ONE: Figure := (m: ClassMetrics) => m.f1

  function Total(pairs: seq<Pair>, labels: seq<Label>, figure: Figure): real {
    if labels == [] then 0.0 else figure(ClassOf(pairs, labels[0])) + Total(pairs, labels[1..], figure)
  }

  function Macro(pairs: seq<Pair>, labels: seq<Label>, figure: Figure): real
    requires labels != []
  {
    Round4(Total(pairs, labels, figure) / |labels| as real)
  }

  lemma {:induction false} TotalConcat(pairs: seq<Pair>, a: seq<Label>, b: seq<Label>, figure: Figure)
    ensures Total(pairs, a + b, figure) == Total(pairs, a, figure) + Total(pairs, b, figure)
  {
    if a == [] {
      assert a + b == b;
    } else {
      assert (a + b)[1..] == a[1..] + b;
      TotalConcat(pairs, a[1..], b, figure);
    }
  }

  lemma Without(b: seq<Label>, i: nat, x: Label)
    requires Distinct(b) && i < |b| && b[i] == x
    ensures var rest := b[..i] + b[i + 1..]; Distinct(rest) && Elements(rest) == Elements(b) - {x}
  {
    var rest := b[..i] + b[i + 1..];
    assert forall k :: 0 <= k < |rest| ==> rest[k] == if k < i then b[k] else b[k + 1];
    assert forall k :: 0 <= k < |b| && k != i ==> b[k] == if k < i then rest[k] else rest[k - 1];
  }

  lemma TakenOut(pairs: seq<Pair>, b: seq<Label>, i: nat, figure: Figure)
    requires i < |b|
    ensures Total(pairs, b, figure) == figure(ClassOf(pairs, b[i])) + Total(pairs, b[..i] + b[i + 1..], figure)
  {
    assert b == b[..i] + b[i..] && b[i..][1..] == b[i + 1..];
    TotalConcat(pairs, b[..i], b[i..], figure);
    TotalConcat(pairs, b[..i], b[i + 1..], figure);
  }

  /** The order of the classes does not matter. */
  lemma {:induction false} TotalAnyOrder(pairs: seq<Pair>, a: seq<Label>, b: seq<Label>, figure: Figure)
    requires Distinct(a) && Distinct(b) && Elements(a) == Elements(b)
    ensures Total(pairs, a, figure) == Total(pairs, b, figure) && |a| == |b|
    decreases |a|
  {
    if a == [] {
      SomeElement(b);
    } else {
      assert a[0] in Elements(b);
      var i :| 0 <= i < |b| && b[i] == a[0];
      Without(a, 0, a[0]);
      Without(b, i, a[0]);
      assert a[..0] + a[1..] == a[1..];
      TotalAnyOrder(pairs, a[1..], b[..i] + b[i + 1..], figure);
      TakenOut(pairs, b, i, figure);
    }
  }

  /** The unweighted mean of a figure over the classes, in whatever order they are listed. */
  ghost predicate IsMacro(pairs: seq<Pair>, figure: Figure, mean: real) {
    forall labels :: labels != [] && Distinct(labels) && Elements(labels) == LabelsOf(pairs) ==>
      mean == Macro(pairs, labels, figure)
  }

  lemma MacroAnyOrder(pairs: seq<Pair>, labels: seq<Label>, figure: Figure)
    requires labels != [] && Distinct(labels) && Elements(labels) == LabelsOf(pairs)
    ensures IsMacro(pairs, figure, Macro(pairs, labels, figure))
  {
    forall other | other != [] && Distinct(other) && Elements(other) == LabelsOf(pairs)
      ensures Macro(pairs, labels, figure) == Macro(pairs, other, figure)
    {
      TotalAnyOrder(pairs, labels, other, figure);
    }
  }

  /** `sum(...) / count`, rounded. */
  method MacroOf(ghost pairs: seq<Pair>, labels: seq<Label>, perClass: map<Label, ClassMetrics>, figure: Figure)
    returns (mean: real)
    requires labels != [] && Distinct(labels) && Elements(labels) == LabelsOf(pairs) == perClass.Keys
    requires forall l :: l in perClass ==> perClass[l] == ClassOf(pairs, l)
    ensures IsMacro(pairs, figure, mean)
  {
    var sum := 0.0;
    for i := 0 to |labels|
      invariant sum + Total(pairs, labels[i..], figure) == Total(pairs, labels, figure)
    {
      assert labels[i..][1..] == labels[i + 1..] && labels[i] in Elements(labels);
      sum := sum + figure(perClass[labels[i]]);
    }
    MacroAnyOrder(pairs, labels, figure);
    mean := Round4(sum / |labels| as real);
  }

  lemma SomeElement(labels: seq<Label>)
    ensures labels != [] ==> Elements(labels) != {}
  {
    if labels != [] { assert labels[0] in Elements(labels); }
  }

  lemma NoLabels()
    ensures forall figure, mean :: IsMacro([], figure, mean)
  {
    forall labels: seq<Label> ensures labels != [] ==> Elements(labels) != LabelsOf([]) { SomeElement(labels); }
  }

  lemma SomeLabel(pairs: seq<Pair>, labels: seq<Label>)
    requires pairs != [] && Elements(labels) == LabelsOf(pairs)
    ensures labels != []
  {
    LabelsAreListed(pairs, 0);
    assert pairs[0].expected in Elements(labels);
  }

  method ComputeMetrics(pairs: seq<Pair>) returns (m: Report)
    ensures m.perClass.Keys == LabelsOf(pairs) && IsConfusionOf(m.confusion, pairs, LabelsOf(pairs))
    ensures forall l :: l in m.perClass ==> m.perClass[l] == ClassOf(pairs, l)
    ensures m.total == |pairs| && m.correct == Agreements(pairs) && m.accuracy == Ratio(m.correct, m.total)
    ensures IsMacro(pairs, PRECISION, m.macroPrecision) && IsMacro(pairs, RECALL, m.macroRecall)
    ensures IsMacro(pairs, F_ONE, m.macroF1)
  {
    if pairs == [] {
      m := Report(map[], map[], 0, 0, 0.0, 0.0, 0.0, 0.0);
      NoLabels();
      return;
    }
    var labels := Listed(LabelsOf(pairs));
    var confusion, supports, predictions := CountPairs(pairs, LabelsOf(pairs));
    var perClass, correct := ClassTable(pairs, labels, confusion, supports, predictions);
    DiagonalIsAgreements(pairs, labels);
    SomeLabel(pairs, labels);
    var precision := MacroOf(pairs, labels, perClass, PRECISION);
    var recall := MacroOf(pairs, labels, perClass, RECALL);
    var f1 := MacroOf(pairs, labels, perClass, F_ONE);
    m := Report(perClass, confusion, |pairs|, correct, Ratio(correct, |pairs|), precision, recall, f1);
  }

  // ------------------------------------------------- what the matrix adds up to

  function RowSum(pairs: seq<Pair>, e: Label, labels: seq<Label>): nat {
    if labels == [] then 0 else Cell(pairs, e, labels[0]) + RowSum(pairs, e, labels[1..])
  }

  function ColumnSum(pairs: seq<Pair>, d: Label, labels: seq<Label>): nat {
    if labels == [] then 0 else Cell(pairs, labels[0], d) + ColumnSum(pairs, d, labels[1..])
  }

  function SupportSum(pairs: seq<Pair>, labels: seq<Label>): nat {
    if labels == [] then 0 else Support(pairs, labels[0]) + SupportSum(pairs, labels[1..])
  }

  function Indicator(l: Label, labels: seq<Label>): nat {
    if l in labels then 1 else 0
  }

  lemma {:induction false} SumsAppend(pairs: seq<Pair>, p: Pair, l: Label, labels: seq<Label>)
    requires Distinct(labels)
    ensures RowSum(pairs + [p], l, labels)
         == RowSum(pairs, l, labels) + if p.expected == l then Indicator(p.predicted, labels) else 0
    ensures ColumnSum(pairs + [p], l, labels)
         == ColumnSum(pairs, l, labels) + if p.predicted == l then Indicator(p.expected, labels) else 0
    ensures SupportSum(pairs + [p], labels) == SupportSum(pairs, labels) + Indicator(p.expected, labels)
    ensures Diagonal(pairs + [p], labels)
         == Diagonal(pairs, labels) + if p.expected == p.predicted then Indicator(p.expected, labels) else 0
  {
    if labels != [] {
      var x, rest := labels[0], labels[1..];
      assert labels == [x] + rest && x !in rest;
      SumsAppend(pairs, p, l, rest);
      CellAppend(pairs, p, l, x);
      CellAppend(pairs, p, x, l);
      CellAppend(pairs, p, x, x);
      MarginsAppend(pairs, p, x);
    }
  }

  lemma {:induction false} SumsOfNothing(l: Label, labels: seq<Label>)
    ensures RowSum([], l, labels) == ColumnSum([], l, labels) == SupportSum([], labels) == Diagonal([], labels) == 0
  {
    if labels != [] { SumsOfNothing(l, labels[1..]); }
  }

  /** Rows add up to supports, columns to predictions, and supports to the number of sites. */
  lemma {:induction false} MatrixAddsUp(pairs: seq<Pair>, l: Label, labels: seq<Label>)
    requires Distinct(labels) && LabelsOf(pairs) <= Elements(labels)
    ensures RowSum(pairs, l, labels) == Support(pairs, l)
    ensures ColumnSum(pairs, l, labels) == Predicted(pairs, l)
    ensures SupportSum(pairs, labels) == |pairs|
  {
    if pairs == [] {
      SumsOfNothing(l, labels);
    } else {
      var init, p := pairs[..|pairs| - 1], pairs[|pairs| - 1];
      assert pairs == init + [p];
      LabelsAreListed(pairs, |init|);
      assert p.expected in Elements(labels) && p.predicted in Elements(labels);
      assert LabelsOf(init) <= LabelsOf(pairs);
      MatrixAddsUp(init, l, labels);
      SumsAppend(init, p, l, labels);
      MarginsAppend(init, p, l);
    }
  }

  lemma {:induction false} AgreementsAppend(pairs: seq<Pair>, p: Pair)
    ensures Agreements(pairs + [p]) == Agreements(pairs) + if p.expected == p.predicted then 1 else 0
  {
    if pairs != [] {
      assert (pairs + [p])[1..] == pairs[1..] + [p];
      AgreementsAppend(pairs[1..], p);
    }
  }

  lemma {:induction false} DiagonalIsAgreements(pairs: seq<Pair>, labels: seq<Label>)
    requires Distinct(labels) && LabelsOf(pairs) <= Elements(labels)
    ensures Diagonal(pairs, labels) == Agreements(pairs)
  {
    if pairs == [] {
      SumsOfNothing(PHISHING, labels);
    } else {
      var init, p := pairs[..|pairs| - 1], pairs[|pairs| - 1];
      assert pairs == init + [p];
      LabelsAreListed(pairs, |init|);
      assert p.expected in Elements(labels);
      assert LabelsOf(init) <= LabelsOf(pairs);
      DiagonalIsAgreements(init, labels);
      SumsAppend(init, p, PHISHING, labels);
      AgreementsAppend(init, p);
    }
  }

  // ------------------------------------------------- per-source metrics

  datatype Keyed<K> = Keyed(key: K, pair: Pair)

  /** The pairs of one group, in order: what `grouped[name]` ends up holding. */
  function Group<K(==)>(keyed: seq<Keyed<K>>, name: K): seq<Pair> {
    if keyed == [] then [] else
      (if keyed[0].key == name then [keyed[0].pair] else []) + Group(keyed[1..], name)
  }

  function PairsOf<K>(keyed: seq<Keyed<K>>): seq<Pair> {
    if keyed == [] then [] else [keyed[0].pair] + PairsOf(keyed[1..])
  }

  lemma {:induction false} GroupAppend<K>(keyed: seq<Keyed<K>>, k: Keyed<K>, name: K)
    ensures Group(keyed + [k], name) == Group(keyed, name) + if k.key == name then [k.pair] else []
  {
    if keyed != [] {
      assert (keyed + [k])[1..] == keyed[1..] + [k];
      GroupAppend(keyed[1..], k, name);
    }
  }

  /** `_split_metrics`: appending each prediction to its group. */
  method SplitPairs<K(==,!new)>(keyed: seq<Keyed<K>>) returns (grouped: map<K, seq<Pair>>)
    ensures forall name :: name in grouped <==> Group(keyed, name) != []
    ensures forall name :: name in grouped ==> grouped[name] == Group(keyed, name)
  {
    grouped := map[];
    for i := 0 to |keyed|
      invariant forall name :: name in grouped <==> Group(keyed[..i], name) != []
      invariant forall name :: name in grouped ==> grouped[name] == Group(keyed[..i], name)
    {
      var k := keyed[i];
      assert keyed[..i + 1] == keyed[..i] + [k];
      forall name { GroupAppend(keyed[..i], k, name); }
      grouped := grouped[k.key := (if k.key in grouped then grouped[k.key] else []) + [k.pair]];
    }
    assert keyed[..|keyed|] == keyed;
  }

  function GroupCells<K(==)>(keyed: seq<Keyed<K>>, names: seq<K>, e: Label, d: Label): nat {
    if names == [] then 0 else Cell(Group(keyed, names[0]), e, d) + GroupCells(keyed, names[1..], e, d)
  }

  lemma {:induction false} CellConcat(a: seq<Pair>, b: seq<Pair>, e: Label, d: Label)
    ensures Cell(a + b, e, d) == Cell(a, e, d) + Cell(b, e, d)
  {
    if a == [] {
      assert a + b == b;
    } else {
      assert (a + b)[1..] == a[1..] + b;
      CellConcat(a[1..], b, e, d);
    }
  }

  lemma {:induction false} GroupCellsStep<K>(k: Keyed<K>, keyed: seq<Keyed<K>>, names: seq<K>, e: Label, d: Label)
    requires Distinct(names)
    ensures GroupCells([k] + keyed, names, e, d) ==
              GroupCells(keyed, names, e, d) + if k.key in names && k.pair == Pair(e, d) then 1 else 0
  {
    if names != [] {
      var x, rest := names[0], names[1..];
      assert names == [x] + rest && x !in rest;
      GroupCellsStep(k, keyed, rest, e, d);
      assert ([k] + keyed)[1..] == keyed;
      CellConcat(if k.key == x then [k.pair] else [], Group(keyed, x), e, d);
    }
  }

  /** The per-source confusion matrices add up, cell by cell, to the matrix of the whole arm. */
  lemma {:induction false} GroupsAddUp<K>(keyed: seq<Keyed<K>>, names: seq<K>, e: Label, d: Label)
    requires Distinct(names) && forall k :: k in keyed ==> k.key in names
    ensures GroupCells(keyed, names, e, d) == Cell(PairsOf(keyed), e, d)
  {
    if keyed == [] {
      NoGroups(keyed, names, e, d);
    } else {
      GroupsAddUp(keyed[1..], names, e, d);
      GroupCellsStep(keyed[0], keyed[1..], names, e, d);
      assert [keyed[0]] + keyed[1..] == keyed && keyed[0] in keyed;
      CellConcat([keyed[0].pair], PairsOf(keyed[1..]), e, d);
    }
  }

  lemma {:induction false} NoGroups<K>(keyed: seq<Keyed<K>>, names: seq<K>, e: Label, d: Label)
    requires keyed == []
    ensures GroupCells(keyed, names, e, d) == 0
  {
    if names != [] { NoGroups(keyed, names[1..], e, d); }
  }
}
