/** Rounding to four decimals, half to even, as `round(x, 4)` does; on exact reals. */
module Rounding {

  function HalfEven(y: real): int {
    var n := y.Floor;
    var fraction := y - n as real;
    if fraction < 0.5 then n else if fraction > 0.5 then n + 1 else if n % 2 == 0 then n else n + 1
  }

  function Units(k: int): real {
    k as real / 10000.0
  }

  function Round4(x: real): real {
    Units(HalfEven(x * 10000.0))
  }

  /** A whole number of ten-thousandths. */
  ghost predicate OnGrid(x: real) {
    exists k: int :: x == Units(k)
  }

  lemma HalfEvenMonotone(x: real, y: real)
    requires x <= y
    ensures HalfEven(x) <= HalfEven(y)
  {
    assert x.Floor <= y.Floor;
  }

  lemma RoundMonotone(x: real, y: real)
    requires x <= y
    ensures Round4(x) <= Round4(y)
  {
    HalfEvenMonotone(x * 10000.0, y * 10000.0);
  }

  lemma RoundOnGrid(x: real)
    ensures OnGrid(Round4(x))
    ensures OnGrid(x) ==> Round4(x) == x
  {
    if OnGrid(x) {
      var k :| x == Units(k);
      assert x * 10000.0 == k as real;
      assert (k as real).Floor == k;
    }
  }

  /** Different grid values are at least a ten-thousandth apart. */
  lemma GridGap(x: real, y: real)
    requires OnGrid(x) && OnGrid(y) && -0.0001 < x - y < 0.0001
    ensures x == y
  {
    var k :| x == Units(k);
    var m :| y == Units(m);
    assert x - y == (k - m) as real / 10000.0;
  }
}
