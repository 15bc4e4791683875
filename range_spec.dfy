/**
 * The abstract view of the array a segment tree stands for: the sums it must
 * answer and the range assignment it must perform, as plain functions on
 * sequences, with the laws the tree's operations rely on.
 */
module RangeSpec {

  /** Sum of all elements of s. */
  function SeqSum(s: seq<int>): int
    decreases |s|
  {
    if s == [] then 0 else s[0] + SeqSum(s[1..])
  }

  /**
   * Sum of s[i] over the positions lo <= i <= hi that exist in s; an empty or
   * reversed range, or one that misses s, sums to 0.
   */
  function RangeSum(s: seq<int>, lo: int, hi: int): int
    decreases |s|
  {
    if s == [] then 0
    else (if lo <= 0 <= hi then s[0] else 0) + RangeSum(s[1..], lo - 1, hi - 1)
  }

  /** n copies of v. */
  function Fill(v: int, n: nat): (s: seq<int>)
    ensures |s| == n
  {
    seq(n, _ => v)
  }

  /** s with every position lo <= i <= hi set to v and every other position kept. */
  function Overwrite(s: seq<int>, lo: int, hi: int, v: int): (t: seq<int>)
    ensures |t| == |s|
  {
    seq(|s|, i requires 0 <= i < |s| => if lo <= i <= hi then v else s[i])
  }

  lemma {:induction false} SeqSumConcat(a: seq<int>, b: seq<int>)
    ensures SeqSum(a + b) == SeqSum(a) + SeqSum(b)
    decreases |a|
  {
    if a == [] {
      assert a + b == b;
    } else {
      assert (a + b)[1..] == a[1..] + b;
      SeqSumConcat(a[1..], b);
    }
  }

  lemma {:induction false} SeqSumFill(v: int, n: nat)
    ensures SeqSum(Fill(v, n)) == v * n
  {
    if n > 0 {
      assert Fill(v, n)[1..] == Fill(v, n - 1);
      SeqSumFill(v, n - 1);
      assert v * n == v + v * (n - 1);
    }
  }

  /** A range sum over a concatenation splits at the seam. */
  lemma {:induction false} RangeSumConcat(a: seq<int>, b: seq<int>, lo: int, hi: int)
    ensures RangeSum(a + b, lo, hi) == RangeSum(a, lo, hi) + RangeSum(b, lo - |a|, hi - |a|)
    decreases |a|
  {
    if a == [] {
      assert a + b == b;
    } else {
      assert (a + b)[1..] == a[1..] + b;
      RangeSumConcat(a[1..], b, lo - 1, hi - 1);
    }
  }

  /** A range that covers all of s sums all of s. */
  lemma {:induction false} RangeSumCovered(s: seq<int>, lo: int, hi: int)
    requires lo <= 0 && |s| - 1 <= hi
    ensures RangeSum(s, lo, hi) == SeqSum(s)
    decreases |s|
  {
    if s != [] {
      RangeSumCovered(s[1..], lo - 1, hi - 1);
    }
  }

  /** A range that misses s, or is empty, sums to 0. */
  lemma {:induction false} RangeSumMissed(s: seq<int>, lo: int, hi: int)
    requires hi < 0 || |s| <= lo || hi < lo
    ensures RangeSum(s, lo, hi) == 0
    decreases |s|
  {
    if s != [] {
      RangeSumMissed(s[1..], lo - 1, hi - 1);
    }
  }

  /** Within bounds, RangeSum is the sum of the slice s[lo..hi]. */
  lemma RangeSumSlice(s: seq<int>, lo: nat, hi: nat)
    requires lo <= hi < |s|
    ensures RangeSum(s, lo, hi) == SeqSum(s[lo..hi + 1])
  {
    var front, middle, back := s[..lo], s[lo..hi + 1], s[hi + 1..];
    assert s == front + (middle + back);
    RangeSumConcat(front, middle + back, lo, hi);
    RangeSumMissed(front, lo, hi);
    RangeSumConcat(middle, back, 0, hi - lo);
    RangeSumCovered(middle, 0, hi - lo);
    RangeSumMissed(back, -(hi - lo + 1), -1);
  }

  /** An assignment over a concatenation splits at the seam. */
  lemma OverwriteConcat(a: seq<int>, b: seq<int>, lo: int, hi: int, v: int)
    ensures Overwrite(a + b, lo, hi, v) == Overwrite(a, lo, hi, v) + Overwrite(b, lo - |a|, hi - |a|, v)
  {
  }

  /** An assignment whose range covers all of s leaves only v. */
  lemma OverwriteCovered(s: seq<int>, lo: int, hi: int, v: int)
    requires lo <= 0 && |s| - 1 <= hi
    ensures Overwrite(s, lo, hi, v) == Fill(v, |s|)
  {
  }

  /** An assignment whose range misses s, or is empty, changes nothing. */
  lemma OverwriteMissed(s: seq<int>, lo: int, hi: int, v: int)
    requires hi < 0 || |s| <= lo || hi < lo
    ensures Overwrite(s, lo, hi, v) == s
  {
  }

  /** Assigning the same value over the same range twice is assigning it once. */
  lemma OverwriteIdempotent(s: seq<int>, lo: int, hi: int, v: int)
    ensures Overwrite(Overwrite(s, lo, hi, v), lo, hi, v) == Overwrite(s, lo, hi, v)
  {
  }

  /** Of two assignments, the later wins where they overlap and each holds where only it applies. */
  lemma OverwriteLaterWins(s: seq<int>, a: int, b: int, v: int, c: int, d: int, w: int, i: nat)
    requires i < |s|
    ensures Overwrite(Overwrite(s, a, b, v), c, d, w)[i] ==
            if c <= i <= d then w else if a <= i <= b then v else s[i]
  {
  }

  /** An assignment does not change the sum of a range it does not touch. */
  lemma {:induction false} RangeSumIsolated(s: seq<int>, lo: int, hi: int, v: int, a: int, b: int)
    requires b < lo || hi < a
    ensures RangeSum(Overwrite(s, lo, hi, v), a, b) == RangeSum(s, a, b)
    decreases |s|
  {
    if s != [] {
      assert Overwrite(s, lo, hi, v)[1..] == Overwrite(s[1..], lo - 1, hi - 1, v);
      RangeSumIsolated(s[1..], lo - 1, hi - 1, v, a - 1, b - 1);
    }
  }

  /** After an assignment, a range inside the assigned one sums to v times its length. */
  lemma RangeSumAssigned(s: seq<int>, lo: int, hi: int, v: int, a: nat, b: nat)
    requires lo <= a <= b <= hi && b < |s|
    ensures RangeSum(Overwrite(s, lo, hi, v), a, b) == v * (b - a + 1)
  {
    var t := Overwrite(s, lo, hi, v);
    RangeSumSlice(t, a, b);
    assert t[a..b + 1] == Fill(v, b - a + 1);
    SeqSumFill(v, b - a + 1);
  }

  /** The sum of nums over the single index b is nums[b]. */
  lemma SeqSumSingle(nums: seq<int>, b: nat)
    requires b < |nums|
    ensures SeqSum(nums[b..b + 1]) == nums[b]
  {
    assert nums[b..b + 1] == [nums[b]];
    assert [nums[b]][1..] == [];
  }

  /** The sum of nums over a range is the sums over its two halves. */
  lemma SumHalves(nums: seq<int>, b: nat, e: nat)
    requires b < e < |nums|
    ensures SeqSum(nums[b..e + 1]) == SeqSum(nums[b..(b + e) / 2 + 1]) + SeqSum(nums[(b + e) / 2 + 1..e + 1])
  {
    var mid := (b + e) / 2;
    assert nums[b..e + 1] == nums[b..mid + 1] + nums[mid + 1..e + 1];
    SeqSumConcat(nums[b..mid + 1], nums[mid + 1..e + 1]);
  }
}
