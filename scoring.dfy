/** Scoring of candidate solutions.
    A solution is a bit vector indexed one-to-one with the item list: bit i set
    means item i is in the knapsack. */
module Scoring {

  /** The empty knapsack over n items. */
  function Zeros(n: nat): (r: seq<bool>)
    ensures |r| == n
    ensures forall i :: 0 <= i < n ==> !r[i]
  {
    seq(n, _ => false)
  }

  /** Sum of xs[i] over the positions i whose bit is set in sol. */
  function Total(xs: seq<int>, sol: seq<bool>): int
    requires |xs| == |sol|
    decreases |sol|
  {
    if |sol| == 0 then 0
    else (if sol[0] then xs[0] else 0) + Total(xs[1..], sol[1..])
  }

  /** The (total value, total weight) pair of a solution. */
  function SolutionValueWeight(values: seq<int>, weights: seq<int>, sol: seq<bool>): (int, int)
    requires |values| == |sol| && |weights| == |sol|
  {
    (Total(values, sol), Total(weights, sol))
  }

  /** Plain sum of a sequence. */
  function Sum(xs: seq<int>): int
    decreases |xs|
  {
    if |xs| == 0 then 0 else xs[0] + Sum(xs[1..])
  }

  /** The elements of xs at the positions whose bit is set, in their original order. */
  function Pick<T>(xs: seq<T>, sol: seq<bool>): (r: seq<T>)
    requires |xs| == |sol|
    ensures |r| <= |xs|
    decreases |sol|
  {
    if |sol| == 0 then []
    else (if sol[0] then [xs[0]] else []) + Pick(xs[1..], sol[1..])
  }

  /** sub is obtained from full by deleting some elements, keeping the order. */
  predicate IsSubsequence<T(==)>(sub: seq<T>, full: seq<T>)
    decreases |full|
  {
    if |sub| == 0 then true
    else if |full| == 0 then false
    else (sub[0] == full[0] && IsSubsequence(sub[1..], full[1..])) || IsSubsequence(sub, full[1..])
  }

  /** The neighbour of a solution: the same vector with bit i inverted. */
  function Flip(sol: seq<bool>, i: nat): (r: seq<bool>)
    requires i < |sol|
    ensures |r| == |sol|
    ensures r[i] == !sol[i]
    ensures forall j :: 0 <= j < |sol| && j != i ==> r[j] == sol[j]
  {
    sol[i := !sol[i]]
  }

  // ---------------------------------------------------------------------------
  // Properties of the score

  /** A solution with no bit set scores zero, whatever the item data. */
  lemma {:induction false} TotalNoneSelected(xs: seq<int>, sol: seq<bool>)
    requires |xs| == |sol|
    requires forall i :: 0 <= i < |sol| ==> !sol[i]
    ensures Total(xs, sol) == 0
    decreases |sol|
  {
    if |sol| > 0 {
      TotalNoneSelected(xs[1..], sol[1..]);
    }
  }

  /** Flipping bit i changes the total by exactly the contribution of item i:
      the incremental update that recomputing from scratch agrees with. */
  lemma {:induction false} TotalFlip(xs: seq<int>, sol: seq<bool>, i: nat)
    requires |xs| == |sol| && i < |sol|
    ensures Total(xs, Flip(sol, i)) == Total(xs, sol) + (if sol[i] then -xs[i] else xs[i])
    decreases |sol|
  {
    if i == 0 {
      assert Flip(sol, 0)[1..] == sol[1..];
    } else {
      assert Flip(sol, i)[1..] == Flip(sol[1..], i - 1);
      TotalFlip(xs[1..], sol[1..], i - 1);
    }
  }

  /** The total of a solution is the sum of the picked elements. */
  lemma {:induction false} TotalIsSumOfPick(xs: seq<int>, sol: seq<bool>)
    requires |xs| == |sol|
    ensures Sum(Pick(xs, sol)) == Total(xs, sol)
    decreases |sol|
  {
    if |sol| > 0 {
      TotalIsSumOfPick(xs[1..], sol[1..]);
      var rest := Pick(xs[1..], sol[1..]);
      if sol[0] {
        assert ([xs[0]] + rest)[1..] == rest;
      } else {
        assert [] + rest == rest;
      }
    }
  }

  /** With non-negative entries the total of any solution is non-negative ... */
  lemma {:induction false} TotalNonNegative(xs: seq<int>, sol: seq<bool>)
    requires |xs| == |sol|
    requires forall k :: 0 <= k < |xs| ==> 0 <= xs[k]
    ensures 0 <= Total(xs, sol)
    decreases |sol|
  {
    if |sol| > 0 {
      TotalNonNegative(xs[1..], sol[1..]);
    }
  }

  /** ... and at least the entry of any selected position. */
  lemma {:induction false} TotalCoversSelected(xs: seq<int>, sol: seq<bool>, i: nat)
    requires |xs| == |sol| && i < |sol| && sol[i]
    requires forall k :: 0 <= k < |xs| ==> 0 <= xs[k]
    ensures xs[i] <= Total(xs, sol)
    decreases |sol|
  {
    if i == 0 {
      TotalNonNegative(xs[1..], sol[1..]);
    } else {
      TotalCoversSelected(xs[1..], sol[1..], i - 1);
    }
  }

  // ---------------------------------------------------------------------------
  // Properties of the selection

  /** xs[i] is picked when bit i is set, and everything picked comes from a set bit. */
  lemma {:induction false} PickMembers<T>(xs: seq<T>, sol: seq<bool>)
    requires |xs| == |sol|
    ensures forall i :: 0 <= i < |sol| && sol[i] ==> xs[i] in Pick(xs, sol)
    ensures forall x :: x in Pick(xs, sol) ==> exists i :: 0 <= i < |sol| && sol[i] && xs[i] == x
    decreases |sol|
  {
    if |sol| > 0 {
      PickMembers(xs[1..], sol[1..]);
      var rest := Pick(xs[1..], sol[1..]);
      assert Pick(xs, sol) == (if sol[0] then [xs[0]] else []) + rest;
      forall x | x in Pick(xs, sol)
        ensures exists i :: 0 <= i < |sol| && sol[i] && xs[i] == x
      {
        if x in rest {
          var j :| 0 <= j < |sol[1..]| && sol[1..][j] && xs[1..][j] == x;
          assert sol[j + 1] && xs[j + 1] == x;
        } else {
          assert sol[0] && xs[0] == x;
        }
      }
      forall i | 0 <= i < |sol| && sol[i]
        ensures xs[i] in Pick(xs, sol)
      {
        if i > 0 {
          assert sol[1..][i - 1] && xs[1..][i - 1] == xs[i];
        }
      }
    }
  }

  /** Nothing is picked exactly when no bit is set. */
  lemma {:induction false} PickEmptyIff<T>(xs: seq<T>, sol: seq<bool>)
    requires |xs| == |sol|
    ensures Pick(xs, sol) == [] <==> forall i :: 0 <= i < |sol| ==> !sol[i]
    decreases |sol|
  {
    if |sol| > 0 {
      PickEmptyIff(xs[1..], sol[1..]);
      if sol[0] {
        assert Pick(xs, sol)[0] == xs[0];
      } else {
        assert Pick(xs, sol) == Pick(xs[1..], sol[1..]);
        if forall i :: 0 <= i < |sol[1..]| ==> !sol[1..][i] {
          forall i | 0 <= i < |sol| ensures !sol[i] {
            if i > 0 { assert !sol[1..][i - 1]; }
          }
        }
      }
    }
  }

  /** The picked elements appear in the original order. */
  lemma {:induction false} PickIsSubsequence<T>(xs: seq<T>, sol: seq<bool>)
    requires |xs| == |sol|
    ensures IsSubsequence(Pick(xs, sol), xs)
    decreases |sol|
  {
    if |sol| > 0 {
      PickIsSubsequence(xs[1..], sol[1..]);
      var rest := Pick(xs[1..], sol[1..]);
      if sol[0] {
        assert Pick(xs, sol) == [xs[0]] + rest;
        assert Pick(xs, sol)[1..] == rest;
      } else {
        assert Pick(xs, sol) == rest;
      }
    }
  }
}
