/** Facts about sequences used by tours and by the sampling statistics. */
module Seqs {
  import opened Common

  predicate Distinct<T(==)>(s: seq<T>)
  {
    forall i, j :: 0 <= i < j < |s| ==> s[i] != s[j]
  }

  function Elements<T>(s: seq<T>): set<T>
  {
    set x | x in s
  }

  lemma ElementsConcat<T>(a: seq<T>, b: seq<T>)
    ensures Elements(a + b) == Elements(a) + Elements(b)
  {
    assert forall x :: x in a + b <==> x in a || x in b;
  }

  /** `s` lists every member of `universe` exactly once. */
  predicate IsPermutationOf<T(==)>(s: seq<T>, universe: set<T>)
  {
    Distinct(s) && Elements(s) == universe
  }

  /** The integers `lo`, ..., `hi - 1`. */
  function IdRange(lo: int, hi: int): (r: set<int>)
    ensures forall i :: i in r <==> lo <= i < hi
    ensures lo <= hi ==> |r| == hi - lo
    decreases hi - lo
  {
    if lo < hi then {lo} + IdRange(lo + 1, hi) else {}
  }

  lemma {:induction false} DistinctSize<T>(s: seq<T>)
    requires Distinct(s)
    ensures |Elements(s)| == |s|
  {
    if s != [] {
      var n := |s| - 1;
      DistinctSize(s[..n]);
      assert Elements(s) == Elements(s[..n]) + {s[n]};
      assert s[n] !in Elements(s[..n]);
    } else {
      assert Elements(s) == {};
    }
  }

  /** A permutation of a finite set is as long as the set is large. */
  lemma PermutationLength<T>(s: seq<T>, universe: set<T>)
    requires IsPermutationOf(s, universe)
    ensures |s| == |universe|
  {
    DistinctSize(s);
  }

  /** Any member of a nonempty set. */
  lemma Pick<T>(s: set<T>) returns (x: T)
    requires s != {}
    ensures x in s
  {
    x :| x in s;
  }

  /** A subset as large as its superset is the whole superset. */
  lemma {:induction false} SubsetOfEqualSize<T>(a: set<T>, b: set<T>)
    requires a <= b && |a| == |b|
    ensures a == b
  {
    if a != b {
      var x :| x in b && x !in a;
      assert a <= b - {x};
      assert |b - {x}| == |b| - 1;
      SubsetSize(a, b - {x});
      assert false;
    }
  }

  lemma {:induction false} SubsetSize<T>(a: set<T>, b: set<T>)
    requires a <= b
    ensures |a| <= |b|
    decreases b
  {
    if b != {} {
      var x :| x in b;
      SubsetSize(a - {x}, b - {x});
      assert |b - {x}| == |b| - 1;
      assert |a - {x}| >= |a| - 1;
    } else {
      assert a == {};
    }
  }

  function Reverse<T>(s: seq<T>): (r: seq<T>)
    ensures |r| == |s|
    ensures forall i :: 0 <= i < |s| ==> r[i] == s[|s| - 1 - i]
  {
    seq(|s|, i requires 0 <= i < |s| => s[|s| - 1 - i])
  }

  lemma ReverseAt<T>(s: seq<T>, i: nat)
    requires i < |s|
    ensures Reverse(s)[i] == s[|s| - 1 - i]
  {
  }

  /** The sum of a sequence of reals, added from left to right. */
  function Sum(s: seq<real>): real
  {
    if s == [] then 0.0 else Sum(s[..|s| - 1]) + s[|s| - 1]
  }

  lemma {:induction false} SumConcat(a: seq<real>, b: seq<real>)
    ensures Sum(a + b) == Sum(a) + Sum(b)
    decreases |b|
  {
    if b != [] {
      var n := |b| - 1;
      assert (a + b)[..|a + b| - 1] == a + b[..n];
      SumConcat(a, b[..n]);
    } else {
      assert a + b == a;
    }
  }

  lemma {:induction false} SumReverse(s: seq<real>)
    ensures Sum(Reverse(s)) == Sum(s)
  {
    if s != [] {
      var n := |s| - 1;
      assert Reverse(s) == [s[n]] + Reverse(s[..n]);
      SumConcat([s[n]], Reverse(s[..n]));
      SumReverse(s[..n]);
      assert Sum([s[n]]) == s[n] by {
        assert [s[n]][..0] == [];
      }
    }
  }

  /** Reversing all but the last element keeps the sum. */
  lemma SumReverseAllButLast(s: seq<real>)
    requires |s| > 0
    ensures Sum(Reverse(s[..|s| - 1]) + [s[|s| - 1]]) == Sum(s)
  {
    var n := |s| - 1;
    SumConcat(Reverse(s[..n]), [s[n]]);
    SumReverse(s[..n]);
    assert [s[n]][..0] == [];
  }

  lemma {:induction false} SumBounds(s: seq<real>, lo: real, hi: real)
    requires forall i :: 0 <= i < |s| ==> lo <= s[i] <= hi
    ensures |s| as real * lo <= Sum(s) <= |s| as real * hi
  {
    if s != [] {
      var n := |s| - 1;
      SumBounds(s[..n], lo, hi);
      assert |s| as real * lo == n as real * lo + lo;
      assert |s| as real * hi == n as real * hi + hi;
    }
  }

  lemma {:induction false} SumNonnegative(s: seq<real>)
    requires forall i :: 0 <= i < |s| ==> 0.0 <= s[i]
    ensures 0.0 <= Sum(s)
  {
    if s != [] {
      SumNonnegative(s[..|s| - 1]);
    }
  }

  /**
   * The index a running minimum with a strict `<` ends on: the first position
   * holding the least value.
   */
  function FirstArgMin(s: seq<real>): (k: nat)
    requires |s| > 0
    ensures k < |s|
    ensures forall j :: 0 <= j < |s| ==> s[k] <= s[j]
    ensures forall j :: 0 <= j < k ==> s[k] < s[j]
  {
    if |s| == 1 then 0
    else
      var k := FirstArgMin(s[..|s| - 1]);
      if s[|s| - 1] < s[k] then |s| - 1 else k
  }

  /** Appending `x` moves the running minimum to it only when `x` is strictly smaller. */
  lemma FirstArgMinAppend(s: seq<real>, x: real)
    requires |s| > 0
    ensures FirstArgMin(s + [x]) == if x < s[FirstArgMin(s)] then |s| else FirstArgMin(s)
  {
    assert (s + [x])[..|s|] == s;
  }

  /** A running minimum over the first element alone stays on it. */
  lemma FirstArgMinStart(s: seq<real>)
    requires |s| > 0
    ensures FirstArgMin(s[..1]) == 0
  {
  }

  /** Extending the running minimum by `s[i]` moves it there only when `s[i]` is strictly smaller. */
  lemma FirstArgMinStep(s: seq<real>, i: nat)
    requires 0 < i < |s|
    ensures FirstArgMin(s[..i + 1]) == if s[i] < s[FirstArgMin(s[..i])] then i else FirstArgMin(s[..i])
  {
    assert s[..i + 1][..i] == s[..i];
  }

  /**
   * One step of a running minimum `if d < best: best = d` that starts from
   * `float('inf')`: after `s[..i]` it sits on the first least element, and
   * `s[i]` replaces it exactly when the first least element of `s[..i + 1]` is `s[i]`.
   */
  lemma RunningMinimumStep(s: seq<real>, i: nat, k: nat, best: Extended)
    requires i < |s|
    requires i == 0 ==> best == Infinity
    requires i > 0 ==> k == FirstArgMin(s[..i]) && best == Finite(s[k])
    ensures Below(s[i], best) <==> FirstArgMin(s[..i + 1]) == i
    ensures !Below(s[i], best) ==> FirstArgMin(s[..i + 1]) == k
  {
    if i > 0 {
      FirstArgMinStep(s, i);
    } else {
      FirstArgMinStart(s);
    }
  }

  /** One step of the running minimum, stated on the values seen so far and the next one. */
  lemma RunningMinimumAppend(s: seq<real>, x: real, k: nat, best: Extended)
    requires s == [] ==> best == Infinity
    requires s != [] ==> k == FirstArgMin(s) && best == Finite(s[k])
    ensures Below(x, best) <==> FirstArgMin(s + [x]) == |s|
    ensures !Below(x, best) ==> FirstArgMin(s + [x]) == k
  {
    if s != [] {
      FirstArgMinAppend(s, x);
    }
  }

  /** The largest element, as `np.max` returns it. */
  function Maximum(s: seq<real>): (m: real)
    requires |s| > 0
    ensures m in s
    ensures forall j :: 0 <= j < |s| ==> s[j] <= m
  {
    if |s| == 1 then s[0]
    else
      var m := Maximum(s[..|s| - 1]);
      if s[|s| - 1] > m then s[|s| - 1] else m
  }

  /** The arithmetic mean, as `np.mean` computes it over exact reals. */
  function Mean(s: seq<real>): real
    requires |s| > 0
  {
    Sum(s) / |s| as real
  }

  /** The best value never exceeds the mean, and the mean never exceeds the worst. */
  lemma MinMeanMax(s: seq<real>)
    requires |s| > 0
    ensures s[FirstArgMin(s)] <= Mean(s) <= Maximum(s)
  {
    MeanWithin(s, s[FirstArgMin(s)], Maximum(s));
  }

  lemma MeanWithin(s: seq<real>, lo: real, hi: real)
    requires |s| > 0
    requires forall i :: 0 <= i < |s| ==> lo <= s[i] <= hi
    ensures lo <= Mean(s) <= hi
  {
    SumBounds(s, lo, hi);
    QuotientBounds(Sum(s), |s| as real, lo, hi);
  }

  lemma QuotientBounds(a: real, n: real, lo: real, hi: real)
    requires n > 0.0 && n * lo <= a <= n * hi
    ensures lo <= a / n <= hi
  {
    var q := a / n;
    assert q * n == a;
    assert (q - lo) * n == a - n * lo;
    assert (hi - q) * n == n * hi - a;
  }

  /** A single trial is at once the best, the mean and the worst. */
  lemma SingleTrialStatistics(s: seq<real>)
    requires |s| == 1
    ensures s[FirstArgMin(s)] == Mean(s) == Maximum(s) == s[0]
  {
    assert s[..0] == [];
    assert Sum(s) == s[0];
  }
}
