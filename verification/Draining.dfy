/** How many runs of a bounded batch empty a queue nobody adds to. */
module Draining {
  import opened Wrappers

  /** What is left of `n` items after some runs that each take up to `limit`. */
  function Left(n: nat, limit: nat, runs: nat): nat {
    if runs == 0 then n else
      var before := Left(n, limit, runs - 1);
      before - Min(limit, before)
  }

  function CeilDiv(n: nat, limit: nat): nat
    requires limit > 0
  {
    (n + limit - 1) / limit
  }

  lemma OneMoreTimes(n: nat, k: nat)
    ensures (n + 1) * k == n * k + k
  {
  }

  /** What grows by `k` each time is a multiple of `k`. */
  lemma {:induction false} GrowsBy(g: nat -> int, k: nat, n: nat)
    requires g(0) == 0 && forall m :: 0 <= m < n ==> g(m + 1) == g(m) + k
    ensures g(n) == n * k
  {
    if n > 0 {
      GrowsBy(g, k, n - 1);
      OneMoreTimes(n - 1, k);
    }
  }

  lemma {:induction false} LeftIs(n: nat, limit: nat, runs: nat)
    ensures Left(n, limit, runs) == if runs * limit <= n then n - runs * limit else 0
  {
    if runs > 0 {
      LeftIs(n, limit, runs - 1);
      OneMoreTimes(runs - 1, limit);
    }
  }

  /** The queue is empty after exactly ceil(n / limit) runs, and not sooner. */
  lemma DrainedIff(n: nat, limit: nat, runs: nat)
    requires limit > 0
    ensures Left(n, limit, runs) == 0 <==> runs >= CeilDiv(n, limit)
  {
    LeftIs(n, limit, runs);
    var c := CeilDiv(n, limit);
    DivisionBounds(n + limit - 1, limit);
    if runs >= c {
      ProductAtLeast(runs, c, limit);
    } else {
      ProductAtLeast(c, runs + 1, limit);
      OneMoreTimes(runs, limit);
    }
  }

  lemma DivisionBounds(n: nat, limit: nat)
    requires limit > 0
    ensures (n / limit) * limit <= n < (n / limit) * limit + limit
  {
  }

  lemma ProductAtLeast(a: nat, b: nat, limit: nat)
    requires a >= b
    ensures a * limit >= b * limit
  {
    assert a * limit == b * limit + (a - b) * limit;
  }

  ghost predicate Batch<T>(before: set<T>, after: set<T>, limit: nat) {
    after <= before && |before - after| == Min(limit, |before|)
  }

  /** A chain of queues, each the one before less a batch of up to `limit`. */
  ghost predicate TakenInTurn<T(!new)>(queues: seq<set<T>>, limit: nat) {
    && queues != []
    && forall i :: 0 < i < |queues| ==> Batch(queues[i - 1], queues[i], limit)
  }

  lemma {:induction false} SizesFall<T(!new)>(queues: seq<set<T>>, limit: nat, i: nat)
    requires TakenInTurn(queues, limit) && i < |queues|
    ensures |queues[i]| == Left(|queues[0]|, limit, i)
  {
    if i > 0 {
      SizesFall(queues, limit, i - 1);
      var before, after := queues[i - 1], queues[i];
      assert Batch(before, after, limit);
      assert before == after + (before - after);
    }
  }

  /** Such a chain is empty from the ceil(n / limit)-th run on, and not before. */
  lemma Drains<T(!new)>(queues: seq<set<T>>, limit: nat, i: nat)
    requires TakenInTurn(queues, limit) && i < |queues| && limit > 0
    ensures queues[i] == {} <==> i >= CeilDiv(|queues[0]|, limit)
  {
    SizesFall(queues, limit, i);
    DrainedIff(|queues[0]|, limit, i);
  }
}
