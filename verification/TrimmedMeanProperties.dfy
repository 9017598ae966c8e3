/** How the block price depends on the single prices: only through a clamp, whatever their order. */
module TrimmedMeanProperties {
  import opened TrimmedMean

  function Clamp(x: real, lo: real, hi: real): real {
    if x < lo then lo else if hi < x then hi else x
  }

  function IndexOf(s: seq<real>, x: real): (i: nat)
    requires x in s
    ensures i < |s| && s[i] == x
  {
    if s[0] == x then 0 else 1 + IndexOf(s[1..], x)
  }

  /** Removing one occurrence of a value. */
  lemma RemoveValue(s: seq<real>, x: real) returns (r: seq<real>)
    requires x in s
    ensures |r| == |s| - 1 && Sum(s) == Sum(r) + x
    ensures forall y | y in s :: y == x || y in r
    ensures forall j | 0 <= j < |r| :: r[j] in s
  {
    var i := IndexOf(s, x);
    SumWithout(s, i);
    WithoutMembers(s, i);
    r := Without(s, i);
  }

  lemma RemoveExtremes(s: seq<real>) returns (q: seq<real>)
    requires 2 <= |s|
    ensures |q| == |s| - 2 && Sum(q) == Sum(s) - Min(s) - Max(s)
    ensures forall x | x in q :: Min(s) <= x <= Max(s)
  {
    var r := RemoveValue(s, Min(s));
    assert r[0] in s;
    q := RemoveValue(r, Max(s));
    forall j | 0 <= j < |q|
      ensures q[j] in s
    {
      var i :| 0 <= i < |r| && r[i] == q[j];
    }
  }

  /** What the aggregate averages: the sum without the extremes. */
  function Middle(s: seq<real>): real
    requires s != []
  {
    Sum(s) - Min(s) - Max(s)
  }

  /** Without one smallest and one largest value, a sum lies between as many copies of the smallest and the largest. */
  lemma MiddleSum(s: seq<real>)
    requires 2 <= |s|
    ensures Times(|s| - 2, Min(s)) <= Middle(s) <= Times(|s| - 2, Max(s))
  {
    var q := RemoveExtremes(s);
    SumBounds(q, Min(s), Max(s));
  }

  lemma MeanMonotone(t: real, u: real, n: nat)
    requires n > 0 && t <= u
    ensures Mean(t, n) <= Mean(u, n)
  {
  }

  lemma MeanTimes(total: real, n: nat)
    requires n > 0
    ensures Times(n, Mean(total, n)) == total
  {
    TimesIsProduct(n, Mean(total, n));
    QuotientTimes(total, n as real);
  }

  lemma QuotientTimes(x: real, y: real)
    requires y != 0.0
    ensures y * (x / y) == x
  {
  }

  /** No prices give 0, one price itself, and two prices half their sum. */
  lemma AggregateOfFew(s: seq<real>)
    ensures |s| == 0 ==> Aggregate(s) == 0.0
    ensures |s| == 1 ==> Aggregate(s) == s[0]
    ensures |s| == 2 ==> Aggregate(s) + Aggregate(s) == s[0] + s[1]
  {
  }

  /** Of more, the sum without the extremes is shared among the others. */
  lemma AggregateOfMany(s: seq<real>, n: nat)
    requires |s| == n + 2 && n > 0
    ensures Times(n, Aggregate(s)) == Sum(s) - Min(s) - Max(s)
  {
    AggregateIsMean(s, n);
    MeanTimes(Middle(s), n);
  }

  lemma AggregateIsMean(s: seq<real>, n: nat)
    requires |s| == n + 2 && n > 0
    ensures Aggregate(s) == Mean(Middle(s), n)
  {
  }

  /** The aggregate is a mean: it lies between the smallest and the largest price. */
  lemma AggregateWithinRange(s: seq<real>)
    requires s != []
    ensures Min(s) <= Aggregate(s) <= Max(s)
  {
    if 3 <= |s| {
      MiddleSum(s);
      MeanBounds(Middle(s), |s| - 2, Min(s), Max(s));
    } else {
      assert s[0] in s;
    }
  }

  lemma MinMaxWithout(s: seq<real>, k: nat)
    requires 2 <= |s| && k < |s|
    ensures
      var o := Without(s, k);
      && Min(s) == (if s[k] < Min(o) then s[k] else Min(o))
      && Max(s) == (if Max(o) < s[k] then s[k] else Max(o))
  {
    WithoutMembers(s, k);
    assert s[k] in s;
  }

  lemma MiddleClamps(s: seq<real>, k: nat)
    requires 3 <= |s| && k < |s|
    ensures
      var o := Without(s, k);
      Middle(s) == Middle(o) + Clamp(s[k], Min(o), Max(o))
  {
    SumWithout(s, k);
    MinMaxWithout(s, k);
    assert Without(s, k)[0] in Without(s, k);
  }

  /** One price enters the aggregate only after it is clamped to the range of all the others. */
  lemma AggregateClamps(s: seq<real>, k: nat)
    requires 3 <= |s| && k < |s|
    ensures
      var o := Without(s, k);
      Aggregate(s) == Mean(Middle(o) + Clamp(s[k], Min(o), Max(o)), |s| - 2)
  {
    MiddleClamps(s, k);
  }

  /** Clamping keeps the middle sum within copies of the bounds. */
  lemma ClampedBounds(total: real, middle: real, n: nat, x: real, lo: real, hi: real)
    requires Times(n, lo) <= middle <= Times(n, hi) && lo <= hi && total == middle + Clamp(x, lo, hi)
    ensures Times(n + 1, lo) <= total <= Times(n + 1, hi)
  {
  }

  lemma ClampedMiddle(total: real, o: seq<real>, x: real)
    requires 2 <= |o| && total == Middle(o) + Clamp(x, Min(o), Max(o))
    ensures Times(|o| - 1, Min(o)) <= total <= Times(|o| - 1, Max(o))
  {
    MiddleSum(o);
    MinBelowMax(o);
    ClampedBounds(total, Middle(o), |o| - 2, x, Min(o), Max(o));
  }

  lemma MinBelowMax(s: seq<real>)
    requires s != []
    ensures Min(s) <= Max(s)
  {
    assert Min(s) <= s[0] <= Max(s);
  }

  lemma AggregateBounds(s: seq<real>, n: nat, lo: real, hi: real)
    requires 3 <= |s| && n == |s| - 2
    requires Times(n, lo) <= Middle(s) <= Times(n, hi)
    ensures lo <= Aggregate(s) <= hi
  {
    MeanBounds(Middle(s), n, lo, hi);
  }

  /** The aggregate lies within the range of the prices other than any one of them. */
  lemma AggregateWithinOthers(s: seq<real>, k: nat)
    requires 3 <= |s| && k < |s|
    ensures Min(Without(s, k)) <= Aggregate(s) <= Max(Without(s, k))
  {
    var o, total := Without(s, k), Middle(s);
    MiddleClamps(s, k);
    ClampedMiddle(total, o, s[k]);
    AggregateBounds(s, |o| - 1, Min(o), Max(o));
  }

  /** However one price is distorted, the aggregate stays within the range of the others. */
  lemma AggregateIsRobust(s: seq<real>, k: nat, x: real)
    requires 3 <= |s| && k < |s|
    ensures Min(Without(s, k)) <= Aggregate(s[k := x]) <= Max(Without(s, k))
  {
    AggregateWithinOthers(s[k := x], k);
    assert Without(s[k := x], k) == Without(s, k);
  }

  lemma MiddleIsMonotone(s: seq<real>, k: nat, x: real)
    requires 3 <= |s| && k < |s| && s[k] <= x
    ensures Middle(s) <= Middle(s[k := x])
  {
    assert Without(s[k := x], k) == Without(s, k);
    assert Without(s, k)[0] in Without(s, k);
    MiddleClamps(s, k);
    MiddleClamps(s[k := x], k);
  }

  /** Raising one price never lowers the aggregate, also when it becomes the largest or stops being the smallest. */
  lemma AggregateIsMonotoneAt(s: seq<real>, k: nat, x: real)
    requires k < |s| && s[k] <= x
    ensures Aggregate(s) <= Aggregate(s[k := x])
  {
    if 3 <= |s| {
      var t := s[k := x];
      MiddleIsMonotone(s, k, x);
      MeanMonotone(Middle(s), Middle(t), |s| - 2);
    }
  }

  /** The first n prices of t, then those of s. */
  function Mixed(s: seq<real>, t: seq<real>, n: nat): seq<real>
    requires |s| == |t| && n <= |s|
  {
    t[..n] + s[n..]
  }

  lemma MixedNext(s: seq<real>, t: seq<real>, n: nat)
    requires |s| == |t| && n < |s|
    ensures Mixed(s, t, n)[n] == s[n] && Mixed(s, t, n)[n := t[n]] == Mixed(s, t, n + 1)
  {
  }

  lemma MixedRises(s: seq<real>, t: seq<real>, n: nat)
    requires |s| == |t| && n < |s| && s[n] <= t[n]
    ensures Aggregate(Mixed(s, t, n)) <= Aggregate(Mixed(s, t, n + 1))
  {
    MixedNext(s, t, n);
    AggregateIsMonotoneAt(Mixed(s, t, n), n, t[n]);
  }

  lemma {:induction false} MixedIsMonotone(s: seq<real>, t: seq<real>, n: nat)
    requires |s| == |t| && n <= |s| && forall i | 0 <= i < |s| :: s[i] <= t[i]
    ensures Aggregate(Mixed(s, t, 0)) <= Aggregate(Mixed(s, t, n))
  {
    if n > 0 {
      MixedIsMonotone(s, t, n - 1);
      MixedRises(s, t, n - 1);
    }
  }

  /** Price by price higher, the aggregate is no lower. */
  lemma HigherPricesHigherAggregate(s: seq<real>, t: seq<real>)
    requires |s| == |t| && forall i | 0 <= i < |s| :: s[i] <= t[i]
    ensures Aggregate(s) <= Aggregate(t)
  {
    MixedIsMonotone(s, t, |s|);
    assert Mixed(s, t, 0) == s && Mixed(s, t, |s|) == t;
  }

  lemma MultisetWithout(s: seq<real>, k: nat)
    requires k < |s|
    ensures multiset(Without(s, k)) == multiset(s) - multiset{s[k]}
  {
    assert s == s[..k] + [s[k]] + s[k + 1..];
  }

  lemma {:induction false} SumOfPermutation(s: seq<real>, t: seq<real>)
    requires multiset(s) == multiset(t)
    ensures Sum(s) == Sum(t) && |s| == |t|
  {
    assert |multiset(s)| == |s| && |multiset(t)| == |t|;
    if s != [] {
      var n := |s| - 1;
      assert s[n] in multiset(t);
      var k := IndexOf(t, s[n]);
      MultisetWithout(s, n);
      MultisetWithout(t, k);
      assert Without(s, n) == s[..n];
      SumOfPermutation(s[..n], Without(t, k));
      SumWithout(t, k);
    }
  }

  lemma MembersOfPermutation(s: seq<real>, t: seq<real>)
    requires multiset(s) == multiset(t) && s != [] && t != []
    ensures Min(s) == Min(t) && Max(s) == Max(t)
  {
    assert forall x :: x in s <==> x in multiset(s);
    assert forall x :: x in t <==> x in multiset(t);
  }

  lemma PairSum(s: seq<real>)
    requires |s| == 2
    ensures Sum(s) == s[0] + s[1]
  {
    var front := s[..1];
    assert Sum(front) == Sum(front[..0]) + front[0];
  }

  /** The order of the prices does not matter. */
  lemma AggregateOfPermutation(s: seq<real>, t: seq<real>)
    requires multiset(s) == multiset(t)
    ensures Aggregate(s) == Aggregate(t)
  {
    SumOfPermutation(s, t);
    if |s| == 2 {
      PairSum(s);
      PairSum(t);
    } else if s != [] {
      MembersOfPermutation(s, t);
    }
  }
}
