/**
  The index sources behind option selection: `Seq(max)` returns a closure over
  an owned counter `n`; `Rnd(max)` draws from an external random source.
 */
module Counters {

  /** The state captured by the closure `Seq(max)` returns: the bound and the
      number of calls made so far. */
  class SeqCounter {
    const max: int
    var n: nat

    /** `Seq(max)`: a fresh counter at zero; nothing is checked about `max`. */
    constructor (max: int)
      ensures this.max == max && n == 0
    {
      this.max := max;
      n := 0;
    }

    /** One call of the closure: returns the old count modulo `max` and counts
        the call. The count is never negative, and for a non-negative dividend
        Go's truncating `%` agrees with Dafny's, for either sign of `max`. */
    method Next() returns (x: int)
      requires max != 0
      modifies this
      ensures x == old(n) % max
      ensures 0 <= x < if max < 0 then -max else max
      ensures n == old(n) + 1
    {
      x := n % max;
      n := n + 1;
    }
  }

  /** One call of the closure `Rnd(max)` returns: some index in [0, max). The
      random source is external; the model only keeps its range. */
  method Rnd(max: int) returns (x: int)
    requires max > 0
    ensures 0 <= x < max
  {
    x :| 0 <= x < max;
  }

  /** The first `k` calls of a fresh `Seq(max)` closure: the `j`-th returns
      `j % max`, for either sign of `max`. */
  method SeqCalls(max: int, k: nat) returns (xs: seq<int>)
    requires max != 0
    ensures |xs| == k && forall j :: 0 <= j < k ==> xs[j] == j % max
  {
    var c := new SeqCounter(max);
    xs := [];
    for j := 0 to k
      invariant c.n == j && |xs| == j
      invariant forall i :: 0 <= i < j ==> xs[i] == i % max
    {
      var x := c.Next();
      xs := xs + [x];
    }
  }

  /** Seven calls of `Seq(5)`. */
  method SeqFiveSeven() returns (xs: seq<int>)
    ensures xs == [0, 1, 2, 3, 4, 0, 1]
  {
    xs := SeqCalls(5, 7);
    assert xs[5] == 5 % 5 && xs[6] == 6 % 5;
  }
}
