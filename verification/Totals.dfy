/** Weighted sums over the threads of a protocol, and an Option type. Every counting invariant in the
    protocol modules is a Total: the weight says what one thread contributes to a shared counter. */
module Totals {
  datatype Option<+T> = None | Some(value: T)

  function Total<T>(s: seq<T>, weight: T -> int): int
  {
    if |s| == 0 then 0 else Total(s[..|s| - 1], weight) + weight(s[|s| - 1])
  }

  /** Replacing one element changes the total by the difference of the two weights. */
  lemma {:induction false} TotalUpdate<T>(s: seq<T>, i: nat, x: T, weight: T -> int)
    requires i < |s|
    ensures Total(s[i := x], weight) == Total(s, weight) - weight(s[i]) + weight(x)
  {
    var last := |s| - 1;
    if i == last {
      assert s[i := x][..last] == s[..last];
    } else {
      assert s[i := x][..last] == s[..last][i := x];
      TotalUpdate(s[..last], i, x, weight);
    }
  }

  /** With weights that are never negative, one element weighs at most the total. */
  lemma {:induction false} TotalCovers<T(!new)>(s: seq<T>, i: nat, weight: T -> int)
    requires i < |s|
    requires forall x :: weight(x) >= 0
    ensures 0 <= weight(s[i]) <= Total(s, weight)
  {
    TotalNonNegative(s[..|s| - 1], weight);
    if i < |s| - 1 {
      TotalCovers(s[..|s| - 1], i, weight);
    }
  }

  lemma {:induction false} TotalNonNegative<T(!new)>(s: seq<T>, weight: T -> int)
    requires forall x :: weight(x) >= 0
    ensures Total(s, weight) >= 0
  {
    if |s| > 0 {
      TotalNonNegative(s[..|s| - 1], weight);
    }
  }

  /** If no element weighs more than one, the total is at most the number of elements. */
  lemma {:induction false} TotalAtMostLength<T(!new)>(s: seq<T>, weight: T -> int)
    requires forall x :: weight(x) <= 1
    ensures Total(s, weight) <= |s|
  {
    if |s| > 0 {
      TotalAtMostLength(s[..|s| - 1], weight);
    }
  }

  /** A positive total has an element of positive weight. */
  lemma {:induction false} TotalWitness<T>(s: seq<T>, weight: T -> int) returns (i: nat)
    requires Total(s, weight) > 0
    ensures i < |s| && weight(s[i]) > 0
  {
    if weight(s[|s| - 1]) > 0 {
      i := |s| - 1;
    } else {
      i := TotalWitness(s[..|s| - 1], weight);
    }
  }

  /** If every element of s weighs nothing, the total is zero. */
  lemma {:induction false} TotalZero<T>(s: seq<T>, weight: T -> int)
    requires forall i :: 0 <= i < |s| ==> weight(s[i]) == 0
    ensures Total(s, weight) == 0
  {
    if |s| > 0 {
      TotalZero(s[..|s| - 1], weight);
    }
  }

  lemma TotalAppend<T>(s: seq<T>, x: T, weight: T -> int)
    ensures Total(s + [x], weight) == Total(s, weight) + weight(x)
  {
    assert (s + [x])[..|s|] == s;
  }
}
