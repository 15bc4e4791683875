/**
 * Concrete runs of the segment tree: the source's tests of `create`, a
 * sequence of assignments and queries on [-1, 7, 1, 3], the two runs on
 * which the source as written goes wrong (AsWritten) answered correctly,
 * and the rejection of an end past the array.
 */
module Scenarios {
  import opened TreeLayout
  import opened RangeSpec
  import opened Representation
  import opened SegmentTree

  /**
   * A filled node over the four indices [b, b + 3]: each of the four leaves
   * below it holds its element, and each inner node the sum of its two
   * children.
   */
  lemma FilledFour(st: seq<int>, nums: seq<int>, r: nat, b: nat)
    requires Filled(st, nums, r, b, b + 3)
    ensures 4 * r + 6 < |st|
    ensures st[r] == st[2 * r + 1] + st[2 * r + 2]
    ensures st[2 * r + 1] == st[4 * r + 3] + st[4 * r + 4] && st[2 * r + 2] == st[4 * r + 5] + st[4 * r + 6]
    ensures st[4 * r + 3] == nums[b] && st[4 * r + 4] == nums[b + 1]
    ensures st[4 * r + 5] == nums[b + 2] && st[4 * r + 6] == nums[b + 3]
  {
    var left, right := 2 * r + 1, 2 * r + 2;
    assert (b + b + 3) / 2 == b + 1;
    assert Filled(st, nums, left, b, b + 1) && Filled(st, nums, right, b + 2, b + 3);
    FilledSplits(st, nums, r, b, b + 3);
    FilledPair(st, nums, left, b);
    FilledPair(st, nums, right, b + 2);
  }

  /** A filled node over the two indices [b, b + 1]: its leaves hold nums[b] and nums[b + 1], and it holds their sum. */
  lemma FilledPair(st: seq<int>, nums: seq<int>, r: nat, b: nat)
    requires Filled(st, nums, r, b, b + 1)
    ensures 2 * r + 2 < |st| && st[r] == st[2 * r + 1] + st[2 * r + 2]
    ensures st[2 * r + 1] == nums[b] && st[2 * r + 2] == nums[b + 1]
  {
    assert (b + b + 1) / 2 == b;
    assert Filled(st, nums, 2 * r + 1, b, b) && Filled(st, nums, 2 * r + 2, b + 1, b + 1);
    FilledSplits(st, nums, r, b, b + 1);
    SeqSumSingle(nums, b);
    SeqSumSingle(nums, b + 1);
  }

  /** `create` on [-1, 7, 1, 3] gives st = [10, 6, 4, -1, 7, 1, 3]. */
  method CreateFourItems() returns (st: seq<int>)
    ensures st == [10, 6, 4, -1, 7, 1, 3]
  {
    var tree := new Segtree([-1, 7, 1, 3]);
    assert CeilLog2(4) == 2 && TreeSize(4) == 7;
    tree.Create();
    st := tree.st[..];
    FilledFour(st, [-1, 7, 1, 3], 0, 0);
  }

  /** `create` on [-1, 7, 1] gives st = [7, 6, 1, -1, 7, MAX, MAX]: slots 5 and 6 lie off the descent. */
  method CreateThreeItems() returns (st: seq<int>)
    ensures st == [7, 6, 1, -1, 7, I32Max, I32Max]
  {
    var nums := [-1, 7, 1];
    var tree := new Segtree(nums);
    assert CeilLog2(3) == 2 && TreeSize(3) == 7;
    ghost var initial := tree.st[..];
    tree.Create();
    st := tree.st[..];
    assert Filled(st, nums, 1, 0, 1) && Filled(st, nums, 2, 2, 2);
    assert Filled(st, nums, 3, 0, 0) && Filled(st, nums, 4, 1, 1);
    assert nums[0..3] == nums && nums[0..2] == [-1, 7];
    assert nums[0..1] == [-1] && nums[1..2] == [7] && nums[2..3] == [1];
    assert !OnDescent(5, 1, 0, 1) && !OnDescent(6, 1, 0, 1);
    assert !OnDescent(5, 0, 0, 2) && !OnDescent(6, 0, 0, 2);
    assert st[5] == initial[5] && st[6] == initial[6];
  }

  /** `create` on [-1, 7] gives st = [6, -1, 7]. */
  method CreateTwoItems() returns (st: seq<int>)
    ensures st == [6, -1, 7]
  {
    var nums := [-1, 7];
    var tree := new Segtree(nums);
    assert CeilLog2(2) == 1 && TreeSize(2) == 3;
    tree.Create();
    st := tree.st[..];
    assert Filled(st, nums, 1, 0, 0) && Filled(st, nums, 2, 1, 1);
    assert nums[0..2] == nums && nums[0..1] == [-1] && nums[1..2] == [7];
  }

  /** `create` on [-1] gives st = [-1]. */
  method CreateOneItem() returns (st: seq<int>)
    ensures st == [-1]
  {
    var nums := [-1];
    var tree := new Segtree(nums);
    assert CeilLog2(1) == 0 && TreeSize(1) == 1;
    tree.Create();
    st := tree.st[..];
    assert nums[0..1] == nums;
  }

  /**
   * On [-1, 7, 1, 3]: the whole sum is 10; after assigning 5 to [1, 2] the
   * whole sum is -1 + 5 + 5 + 3 = 12 and the sum over [1, 2] is 10; after
   * assigning 0 to [0, 3] the whole sum is 0.
   */
  method AssignAndQuery() returns (whole: int, afterFive: int, inside: int, afterZero: int)
    ensures whole == 10 && afterFive == 12 && inside == 10 && afterZero == 0
  {
    var nums := [-1, 7, 1, 3];
    AssignAndQueryValues();
    var tree := new Segtree(nums);
    tree.Create();
    whole := tree.Sum(0, 3);
    tree.Modify(1, 2, 5);
    ghost var five := tree.Elements();
    assert five == [-1, 5, 5, 3];
    afterFive := tree.Sum(0, 3);
    inside := tree.Sum(1, 2);
    tree.Modify(0, 3, 0);
    assert tree.Elements() == [0, 0, 0, 0];
    afterZero := tree.Sum(0, 3);
  }

  /** The elements and sums that AssignAndQuery goes through, on plain sequences. */
  lemma AssignAndQueryValues()
    ensures RangeSum([-1, 7, 1, 3], 0, 3) == 10
    ensures Overwrite([-1, 7, 1, 3], 1, 2, 5) == [-1, 5, 5, 3]
    ensures RangeSum([-1, 5, 5, 3], 0, 3) == 12 && RangeSum([-1, 5, 5, 3], 1, 2) == 10
    ensures Overwrite([-1, 5, 5, 3], 0, 3, 0) == [0, 0, 0, 0]
    ensures RangeSum([0, 0, 0, 0], 0, 3) == 0
  {
    var five := Overwrite([-1, 7, 1, 3], 1, 2, 5);
    assert five[0] == -1 && five[1] == 5 && five[2] == 5 && five[3] == 3;
    var zero := Overwrite([-1, 5, 5, 3], 0, 3, 0);
    assert zero[0] == 0 && zero[1] == 0 && zero[2] == 0 && zero[3] == 0;
  }

  /**
   * On [-1, 7, 1], assigning 5 everywhere and then asking for the sum over
   * [0, 1] answers 10 (AsWritten.QueryFlushLosesAssignment answers 0).
   */
  method QueryAfterAssigningAll() returns (total: int)
    ensures total == 10
  {
    var tree := new Segtree([-1, 7, 1]);
    tree.Create();
    tree.Modify(0, 2, 5);
    assert tree.Elements() == [5, 5, 5];
    total := tree.Sum(0, 1);
    assert RangeSum([5, 5, 5], 0, 1) == 10;
  }

  /**
   * On [-1, 7], assigning 0 everywhere and then asking for the sum over
   * [0, 0] answers 0 (AsWritten.ZeroAssignmentLost answers -1).
   */
  method QueryAfterAssigningZero() returns (total: int)
    ensures total == 0
  {
    var tree := new Segtree([-1, 7]);
    tree.Create();
    tree.Modify(0, 1, 0);
    assert tree.Elements() == [0, 0];
    total := tree.Sum(0, 0);
    assert RangeSum([0, 0], 0, 0) == 0;
  }

  /** On [-1, 7, 1, 3], an end past the array is rejected: `sum` answers -1 and `modify` changes nothing. */
  method EndPastArray() returns (rejected: int, whole: int)
    ensures rejected == -1 && whole == 10
  {
    var nums := [-1, 7, 1, 3];
    var tree := new Segtree(nums);
    tree.Create();
    tree.Modify(0, 4, 9);
    assert tree.Elements() == nums;
    rejected := tree.Sum(2, 4);
    whole := tree.Sum(0, 3);
    assert RangeSum(nums, 0, 3) == 10;
  }

  /** Assigning v over [qb, qe] twice leaves the same elements as assigning it once. */
  method AssignTwice(tree: Segtree, qb: nat, qe: nat, v: int)
    requires tree.Built() && qe < |tree.nums|
    modifies tree.st, tree.lazy
    ensures tree.Built() && tree.Elements() == Overwrite(old(tree.Elements()), qb, qe, v)
  {
    tree.Modify(qb, qe, v);
    tree.Modify(qb, qe, v);
    OverwriteIdempotent(old(tree.Elements()), qb, qe, v);
  }

  /** After assigning v over [qb, qe], a query inside that range answers v times its length. */
  method QueryInsideAssigned(tree: Segtree, qb: nat, qe: nat, v: int, lo: nat, hi: nat) returns (total: int)
    requires tree.Built() && qb <= lo <= hi <= qe < |tree.nums|
    modifies tree.st, tree.lazy
    ensures total == v * (hi - lo + 1)
  {
    ghost var before := tree.Elements();
    tree.Modify(qb, qe, v);
    total := tree.Sum(lo, hi);
    RangeSumAssigned(before, qb, qe, v, lo, hi);
  }

  /** An assignment over [qb, qe] does not change the answer for a range disjoint from it. */
  method QueryBesideAssigned(tree: Segtree, qb: nat, qe: nat, v: int, lo: nat, hi: nat)
    returns (before: int, after: int)
    requires tree.Built() && qe < |tree.nums| && hi < |tree.nums| && (hi < qb || qe < lo)
    modifies tree.st, tree.lazy
    ensures before == after
  {
    before := tree.Sum(lo, hi);
    ghost var elements := tree.Elements();
    tree.Modify(qb, qe, v);
    after := tree.Sum(lo, hi);
    RangeSumIsolated(elements, qb, qe, v, lo, hi);
  }

  /**
   * Two overlapping assignments: every position takes the later value where
   * the later range covers it, the earlier value where only the earlier one
   * does, and keeps its old value elsewhere.
   */
  method AssignOverlapping(tree: Segtree, a: nat, b: nat, v: int, c: nat, d: nat, w: int)
    requires tree.Built() && b < |tree.nums| && d < |tree.nums|
    modifies tree.st, tree.lazy
    ensures tree.Built() && |tree.Elements()| == |old(tree.Elements())|
    ensures forall i :: 0 <= i < |tree.Elements()| ==>
      tree.Elements()[i] == if c <= i <= d then w else if a <= i <= b then v else old(tree.Elements())[i]
  {
    ghost var initial := tree.Elements();
    tree.Modify(a, b, v);
    tree.Modify(c, d, w);
    forall i | 0 <= i < |initial|
      ensures tree.Elements()[i] == if c <= i <= d then w else if a <= i <= b then v else initial[i]
    {
      OverwriteLaterWins(initial, a, b, v, c, d, w, i);
    }
  }
}
