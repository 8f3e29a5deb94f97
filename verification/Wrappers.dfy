/** Stock containers shared by every module. */
module Wrappers {

  datatype Option<+T> = None | Some(value: T)

  /** Sequences without repetition. */
  ghost predicate Distinct<T>(s: seq<T>) {
    forall i, j :: 0 <= i < j < |s| ==> s[i] != s[j]
  }

  function Elements<T>(s: seq<T>): set<T> {
    set x | x in s
  }

  lemma {:induction false} DistinctSize<T>(s: seq<T>)
    requires Distinct(s)
    ensures |Elements(s)| == |s|
  {
    if s != [] {
      var tail := s[1..];
      DistinctSize(tail);
      assert s == [s[0]] + tail;
      assert Elements(s) == {s[0]} + Elements(tail);
    }
  }

  function Min(a: int, b: int): int {
    if a < b then a else b
  }

  /** A set's elements, each once. */
  method Listed<T(==)>(s: set<T>) returns (xs: seq<T>)
    ensures Distinct(xs) && Elements(xs) == s
  {
    xs := [];
    var rest := s;
    while rest != {}
      invariant Distinct(xs) && Elements(xs) !! rest && Elements(xs) + rest == s
      decreases rest
    {
      var x :| x in rest;
      assert Elements(xs + [x]) == Elements(xs) + {x};
      xs, rest := xs + [x], rest - {x};
    }
  }
}
