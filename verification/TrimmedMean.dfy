/** The block price: the mean of the prices without the first smallest and the first largest. */
module TrimmedMean {

  /** math.MaxFloat64, (2^53 - 1) * 2^971. */
  const MAX_FLOAT64: real := 179769313486231570814527423731704356798070567525844996598917476803157260780028538760589558632766878171540458953514382464234321326889464182768467546703537516986049910576551282076245490090389328944075868508455133942304583236903222948165808559332123348274797826204144723168738177180919299881250404026184124858368.0

  function Sum(s: seq<real>): real {
    if s == [] then 0.0 else Sum(s[..|s| - 1]) + s[|s| - 1]
  }

  function Min(s: seq<real>): (m: real)
    requires s != []
    ensures m in s && forall i | 0 <= i < |s| :: m <= s[i]
  {
    if |s| == 1 then s[0]
    else
      var n := |s| - 1;
      var m := Min(s[..n]);
      assert m in s[..n];
      if s[n] < m then s[n] else m
  }

  function Max(s: seq<real>): (m: real)
    requires s != []
    ensures m in s && forall i | 0 <= i < |s| :: s[i] <= m
  {
    if |s| == 1 then s[0]
    else
      var n := |s| - 1;
      var m := Max(s[..n]);
      assert m in s[..n];
      if m < s[n] then s[n] else m
  }

  /** A value that a finite float64 can hold. */
  predicate Finite(x: real) {
    -MAX_FLOAT64 <= x <= MAX_FLOAT64
  }

  /** The aggregate, without reference to positions. */
  function Aggregate(s: seq<real>): real {
    if s == [] then 0.0
    else if |s| == 1 then s[0]
    else if |s| == 2 then (s[0] + s[1]) / 2.0
    else Mean(Sum(s) - Min(s) - Max(s), |s| - 2)
  }

  function Mean(total: real, n: nat): real
    requires n > 0
  {
    total / n as real
  }

  // ----- Sums -----

  lemma {:induction false} SumConcat(s: seq<real>, t: seq<real>)
    ensures Sum(s + t) == Sum(s) + Sum(t)
  {
    if t == [] {
      assert s + t == s;
    } else {
      var n := |t| - 1;
      assert (s + t)[..|s + t| - 1] == s + t[..n];
      SumConcat(s, t[..n]);
    }
  }

  function Without(s: seq<real>, k: nat): seq<real>
    requires k < |s|
  {
    s[..k] + s[k + 1..]
  }

  lemma {:induction false} SumWithout(s: seq<real>, k: nat)
    requires k < |s|
    ensures Sum(s) == Sum(Without(s, k)) + s[k]
  {
    var front, back := s[..k + 1], s[k + 1..];
    assert s == front + back && front[..k] == s[..k];
    SumConcat(front, back);
    SumConcat(s[..k], back);
  }

  lemma WithoutMembers(s: seq<real>, k: nat)
    requires k < |s|
    ensures forall x | x in s :: x == s[k] || x in Without(s, k)
    ensures forall x | x in Without(s, k) :: x in s
  {
    var r := Without(s, k);
    forall x | x in s
      ensures x == s[k] || x in r
    {
      var i :| 0 <= i < |s| && s[i] == x;
      if i < k {
        assert r[i] == x;
      } else if i > k {
        assert r[i - 1] == x;
      }
    }
  }

  /** n copies of x, added up. */
  function Times(n: nat, x: real): real {
    if n == 0 then 0.0 else Times(n - 1, x) + x
  }

  lemma TimesIsProduct(n: nat, x: real)
    ensures Times(n, x) == n as real * x
  {
    if n > 0 {
      TimesIsProduct(n - 1, x);
      assert n as real == (n - 1) as real + 1.0;
      assert ((n - 1) as real + 1.0) * x == (n - 1) as real * x + x;
    }
  }

  /** A sum of values in [lo, hi] lies between as many copies of lo and of hi. */
  lemma {:induction false} SumBounds(s: seq<real>, lo: real, hi: real)
    requires forall x | x in s :: lo <= x <= hi
    ensures Times(|s|, lo) <= Sum(s) <= Times(|s|, hi)
  {
    if s != [] {
      var n := |s| - 1;
      assert s[n] in s;
      assert forall x | x in s[..n] :: x in s;
      SumBounds(s[..n], lo, hi);
    }
  }

  lemma MeanBounds(total: real, n: nat, lo: real, hi: real)
    requires n > 0 && Times(n, lo) <= total <= Times(n, hi)
    ensures lo <= Mean(total, n) <= hi
  {
    TimesIsProduct(n, lo);
    TimesIsProduct(n, hi);
    QuotientBounds(total, n as real, lo, hi);
  }

  lemma QuotientBounds(total: real, x: real, lo: real, hi: real)
    requires x > 0.0 && x * lo <= total <= x * hi
    ensures lo <= total / x <= hi
  {
    var q := total / x;
    assert q * x == total;
    assert (q - lo) * x >= 0.0;
    assert (hi - q) * x >= 0.0;
  }

  // ----- The closed form of the loop -----

  /** Dropping two different positions, one holding the minimum and one the maximum, or one position of equal values,
      leaves a mean that the closed form describes. */
  method RemoveMinAndMaxAndCalculateAverage(nums: seq<real>) returns (average: real)
    requires forall i | 0 <= i < |nums| :: Finite(nums[i])
    ensures average == Aggregate(nums)
    ensures |nums| == 0 ==> average == 0.0
    ensures |nums| == 1 ==> average == nums[0]
    ensures |nums| == 2 ==> average + average == nums[0] + nums[1]
  {
    if |nums| == 0 {
      return 0.0;
    }
    if |nums| == 1 {
      return nums[0];
    }
    if |nums| == 2 {
      return (nums[0] + nums[1]) / 2.0;
    }
    var minVal, maxVal := MAX_FLOAT64, -MAX_FLOAT64;
    var minIndex, maxIndex := -1, -1;
    for i := 0 to |nums|
      invariant SmallestSoFar(nums, i, minVal, minIndex)
      invariant LargestSoFar(nums, i, maxVal, maxIndex)
    {
      var num := nums[i];
      if num < minVal {
        minVal, minIndex := num, i;
      }
      if num > maxVal {
        maxVal, maxIndex := num, i;
      }
    }
    var filteredNums: seq<real> := [];
    for i := 0 to |nums|
      invariant filteredNums == Filtered(nums, minIndex, maxIndex, i)
    {
      if i != minIndex && i != maxIndex {
        filteredNums := filteredNums + [nums[i]];
      }
    }
    var sum := 0.0;
    for i := 0 to |filteredNums|
      invariant sum == Sum(filteredNums[..i])
    {
      assert filteredNums[..i + 1][..i] == filteredNums[..i];
      sum := sum + filteredNums[i];
    }
    assert filteredNums[..|filteredNums|] == filteredNums;
    SearchFinds(nums, minVal, maxVal, minIndex, maxIndex);
    FilteredMean(nums, minIndex, maxIndex);
    average := sum / |filteredNums| as real;
  }

  /** minIndex is the first position of the smallest of the first n values; -1 while none is below the largest float. */
  ghost predicate SmallestSoFar(nums: seq<real>, n: nat, minVal: real, minIndex: int)
    requires n <= |nums|
  {
    && -1 <= minIndex < n
    && (forall i | 0 <= i < n :: minVal <= nums[i])
    && (if minIndex == -1 then minVal == MAX_FLOAT64
        else nums[minIndex] == minVal && forall i | 0 <= i < minIndex :: minVal < nums[i])
  }

  ghost predicate LargestSoFar(nums: seq<real>, n: nat, maxVal: real, maxIndex: int)
    requires n <= |nums|
  {
    && -1 <= maxIndex < n
    && (forall i | 0 <= i < n :: nums[i] <= maxVal)
    && (if maxIndex == -1 then maxVal == -MAX_FLOAT64
        else nums[maxIndex] == maxVal && forall i | 0 <= i < maxIndex :: nums[i] < maxVal)
  }

  /** The first n values without those at the two positions. */
  ghost function Filtered(nums: seq<real>, minIndex: int, maxIndex: int, n: nat): seq<real>
    requires n <= |nums|
  {
    if n == 0 then []
    else if n - 1 == minIndex || n - 1 == maxIndex then Filtered(nums, minIndex, maxIndex, n - 1)
    else Filtered(nums, minIndex, maxIndex, n - 1) + [nums[n - 1]]
  }

  /** How many of the two positions lie below n, counted once when they coincide. */
  ghost function Dropped(minIndex: int, maxIndex: int, n: nat): nat {
    (if 0 <= minIndex < n then 1 else 0) + (if 0 <= maxIndex < n && maxIndex != minIndex then 1 else 0)
  }

  ghost function DroppedSum(nums: seq<real>, minIndex: int, maxIndex: int, n: nat): real
    requires n <= |nums|
  {
    (if 0 <= minIndex < n then nums[minIndex] else 0.0)
    + (if 0 <= maxIndex < n && maxIndex != minIndex then nums[maxIndex] else 0.0)
  }

  lemma DroppedNext(nums: seq<real>, minIndex: int, maxIndex: int, n: nat)
    requires n < |nums|
    ensures
      var drops := n == minIndex || n == maxIndex;
      && Dropped(minIndex, maxIndex, n + 1) == Dropped(minIndex, maxIndex, n) + (if drops then 1 else 0)
      && DroppedSum(nums, minIndex, maxIndex, n + 1) ==
         DroppedSum(nums, minIndex, maxIndex, n) + (if drops then nums[n] else 0.0)
  {
  }

  lemma SumOfNext(s: seq<real>, x: real)
    ensures Sum(s + [x]) == Sum(s) + x
  {
    assert (s + [x])[..|s|] == s;
  }

  lemma {:induction false} FilteredSum(nums: seq<real>, minIndex: int, maxIndex: int, n: nat)
    requires n <= |nums|
    ensures |Filtered(nums, minIndex, maxIndex, n)| == n - Dropped(minIndex, maxIndex, n)
    ensures Sum(Filtered(nums, minIndex, maxIndex, n)) == Sum(nums[..n]) - DroppedSum(nums, minIndex, maxIndex, n)
  {
    if n > 0 {
      FilteredSum(nums, minIndex, maxIndex, n - 1);
      assert nums[..n] == nums[..n - 1] + [nums[n - 1]];
      SumOfNext(nums[..n - 1], nums[n - 1]);
      SumOfNext(Filtered(nums, minIndex, maxIndex, n - 1), nums[n - 1]);
      DroppedNext(nums, minIndex, maxIndex, n - 1);
    }
  }

  /** What the search leaves behind, without its sentinels: two positions of the minimum and the maximum, or all
      values equal and one position to drop. */
  ghost predicate Found(nums: seq<real>, minIndex: int, maxIndex: int) {
    && nums != []
    && if Dropped(minIndex, maxIndex, |nums|) == 2 then nums[minIndex] == Min(nums) && nums[maxIndex] == Max(nums)
       else
         && Dropped(minIndex, maxIndex, |nums|) == 1
         && DroppedSum(nums, minIndex, maxIndex, |nums|) == nums[0]
         && forall i | 0 <= i < |nums| :: nums[i] == nums[0]
  }

  /** A sentinel stays in place only when every value equals it. */
  lemma SearchFinds(nums: seq<real>, minVal: real, maxVal: real, minIndex: int, maxIndex: int)
    requires nums != [] && forall i | 0 <= i < |nums| :: Finite(nums[i])
    requires SmallestSoFar(nums, |nums|, minVal, minIndex) && LargestSoFar(nums, |nums|, maxVal, maxIndex)
    ensures Found(nums, minIndex, maxIndex)
  {
  }

  /** Of equal values any number may be left out. */
  lemma MeanOfEqual(nums: seq<real>, c: real)
    requires 3 <= |nums| && forall x | x in nums :: x == c
    ensures Mean(Sum(nums) - c, |nums| - 1) == c && Aggregate(nums) == c
  {
    var total := Sum(nums);
    SumBounds(nums, c, c);
    MeanBounds(total - c, |nums| - 1, c, c);
    MeanBounds(total - c - c, |nums| - 2, c, c);
    assert Min(nums) == c && Max(nums) == c;
  }

  /** The mean of what is left equals the closed form, also when all values are equal and only one is dropped. */
  lemma FilteredMean(nums: seq<real>, minIndex: int, maxIndex: int)
    requires 3 <= |nums| && Found(nums, minIndex, maxIndex)
    ensures var f := Filtered(nums, minIndex, maxIndex, |nums|); f != [] && Mean(Sum(f), |f|) == Aggregate(nums)
  {
    FilteredSum(nums, minIndex, maxIndex, |nums|);
    assert nums[..|nums|] == nums;
    if Dropped(minIndex, maxIndex, |nums|) == 1 {
      MeanOfEqual(nums, nums[0]);
    }
  }
}
