/**
 * The segment tree exactly as its source writes it, on values: the lazy
 * vector uses 0 for "no pending assignment", and the flush at the head of
 * `sum_runner` computes the width of [begin, end] as begin - end + 1 where
 * the flush at the head of `modify_runner` computes end - begin + 1. The
 * query bounds and the assigned value, fields of the tree in the source, are
 * parameters. Both discrepancies are shown on concrete trees; the class in
 * SegmentTree is the corrected tree.
 */
module AsWritten {
  import opened TreeLayout
  import opened RangeSpec

  /** The two vectors of the tree: st holds node sums, lazy pending assignments with 0 meaning none. */
  datatype Vectors = Vectors(st: seq<int>, lazy: seq<int>)

  /** Width of [b, e] as the flush in `modify_runner` computes it. */
  function UpdateWidth(b: int, e: int): (w: int)
    ensures b <= e ==> w >= 1
  {
    e - b + 1
  }

  /**
   * Width of [b, e] as the flush in `sum_runner` computes it. It agrees with
   * the width of `modify_runner` only on single-index nodes; on every wider
   * node it is 0 or negative.
   */
  function QueryWidth(b: int, e: int): (w: int)
    ensures w == UpdateWidth(b, e) <==> b == e
    ensures b < e ==> w <= 0 < UpdateWidth(b, e)
  {
    b - e + 1
  }

  /**
   * On every node wider than one index, the value the flush in `sum_runner`
   * writes for a pending tag t != 0 differs from t times the node's width,
   * the sum of the elements the tag stands for.
   */
  lemma QueryWidthDisagrees(b: int, e: int, t: int)
    requires b < e && t != 0
    ensures t * QueryWidth(b, e) != t * UpdateWidth(b, e)
  {
    assert t * UpdateWidth(b, e) - t * QueryWidth(b, e) == t * (2 * (e - b));
  }

  /** `new`: 2 * 2^ceil(log2 n) - 1 slots, st all I32Max, lazy all 0. */
  function New(n: nat): (v: Vectors)
    requires n >= 1
    ensures |v.st| == |v.lazy| == TreeSize(n)
    ensures forall i :: 0 <= i < |v.st| ==> v.st[i] == I32Max && v.lazy[i] == 0
  {
    Vectors(seq(TreeSize(n), _ => I32Max), seq(TreeSize(n), _ => 0))
  }

  /**
   * The flush that opens both runners, with the width w it is given: a
   * non-zero tag t sets st[r] to t * w, is copied to both children when
   * they are in bounds, and is cleared.
   */
  function Flush(v: Vectors, r: nat, w: int): (v': Vectors)
    requires r < |v.st| == |v.lazy|
    ensures |v'.st| == |v.st| && |v'.lazy| == |v.lazy|
    ensures v'.lazy[r] == 0
    ensures v.lazy[r] == 0 ==> v' == v
  {
    if v.lazy[r] != 0 then
      var t := v.lazy[r];
      var lz := if 2 * r + 2 < |v.st| then v.lazy[2 * r + 1 := t][2 * r + 2 := t] else v.lazy;
      Vectors(v.st[r := t * w], lz[r := 0])
    else v
  }

  /** `modify_runner` as written, returning the new vectors and the node's new st slot. */
  function ModifyRunner(v: Vectors, r: nat, b: nat, e: nat, ghost k: nat, qb: nat, qe: nat, x: int): (res: (Vectors, int))
    requires Slot(|v.st|, r, b, e, k) && |v.lazy| == |v.st|
    ensures |res.0.st| == |v.st| && |res.0.lazy| == |v.lazy|
    ensures res.1 == res.0.st[r]
    decreases e - b
  {
    var v0 := Flush(v, r, UpdateWidth(b, e));
    if qb <= b && qe >= e then
      var lz := if 2 * r + 2 < |v0.st| then v0.lazy[2 * r + 1 := x][2 * r + 2 := x] else v0.lazy;
      (Vectors(v0.st[r := x * UpdateWidth(b, e)], lz), x * UpdateWidth(b, e))
    else if qe < b || qb > e then
      (v0, v0.st[r])
    else
      ChildSlots(|v.st|, r, b, e, k);
      var mid := (b + e) / 2;
      var (v1, left) := ModifyRunner(v0, 2 * r + 1, b, mid, k - 1, qb, qe, x);
      var (v2, right) := ModifyRunner(v1, 2 * r + 2, mid + 1, e, k - 1, qb, qe, x);
      (Vectors(v2.st[r := left + right], v2.lazy), left + right)
  }

  /** `sum_runner` as written, returning the new vectors and the node's answer. */
  function SumRunner(v: Vectors, r: nat, b: nat, e: nat, ghost k: nat, qb: nat, qe: nat): (res: (Vectors, int))
    requires Slot(|v.st|, r, b, e, k) && |v.lazy| == |v.st|
    ensures |res.0.st| == |v.st| && |res.0.lazy| == |v.lazy|
    ensures qe < b || qb > e ==> res.1 == 0
    decreases e - b
  {
    var v0 := Flush(v, r, QueryWidth(b, e));
    if qb <= b && qe >= e then
      (v0, v0.st[r])
    else if qb > e || qe < b then
      (v0, 0)
    else
      ChildSlots(|v.st|, r, b, e, k);
      var mid := (b + e) / 2;
      var (v1, left) := SumRunner(v0, 2 * r + 1, b, mid, k - 1, qb, qe);
      var (v2, right) := SumRunner(v1, 2 * r + 2, mid + 1, e, k - 1, qb, qe);
      (v2, right + left)
  }

  /** `create_runner` as written, returning the new st vector and the node's sum. */
  function CreateRunner(st: seq<int>, nums: seq<int>, r: nat, b: nat, e: nat, ghost k: nat): (res: (seq<int>, int))
    requires Slot(|st|, r, b, e, k) && e < |nums|
    ensures |res.0| == |st| && res.1 == res.0[r]
    ensures res.1 == SeqSum(nums[b..e + 1])
    decreases e - b
  {
    if b == e then
      SeqSumSingle(nums, b);
      (st[r := nums[b]], nums[b])
    else
      ChildSlots(|st|, r, b, e, k);
      var mid := (b + e) / 2;
      var (st1, left) := CreateRunner(st, nums, 2 * r + 1, b, mid, k - 1);
      var (st2, right) := CreateRunner(st1, nums, 2 * r + 2, mid + 1, e, k - 1);
      SumHalves(nums, b, e);
      (st2[r := left + right], left + right)
  }

  /** `new` followed by `create`. */
  function Build(nums: seq<int>): (v: Vectors)
    requires |nums| >= 1
    ensures |v.st| == |v.lazy| == TreeSize(|nums|)
    ensures v.st[0] == SeqSum(nums)
  {
    RootSlot(|nums|);
    var v0 := New(|nums|);
    assert nums[0..|nums|] == nums;
    Vectors(CreateRunner(v0.st, nums, 0, 0, |nums| - 1, CeilLog2(|nums|)).0, v0.lazy)
  }

  /** `modify` as written: an end past the array changes nothing. */
  function Modify(v: Vectors, n: nat, qb: nat, qe: nat, x: int): (v': Vectors)
    requires n >= 1 && |v.st| == |v.lazy| == TreeSize(n)
    ensures |v'.st| == |v'.lazy| == TreeSize(n)
    ensures qe >= n ==> v' == v
  {
    if qe >= n then v
    else
      RootSlot(n);
      ModifyRunner(v, 0, 0, n - 1, CeilLog2(n), qb, qe, x).0
  }

  /** `sum` as written: an end past the array answers -1 and changes nothing. */
  function Sum(v: Vectors, n: nat, qb: nat, qe: nat): (res: (Vectors, int))
    requires n >= 1 && |v.st| == |v.lazy| == TreeSize(n)
    ensures |res.0.st| == |res.0.lazy| == TreeSize(n)
    ensures qe >= n ==> res == (v, -1)
  {
    if qe >= n then (v, -1)
    else
      RootSlot(n);
      SumRunner(v, 0, 0, n - 1, CeilLog2(n), qb, qe)
  }

  /** Building a leaf copies its element into its slot. */
  lemma CreateLeaf(st: seq<int>, nums: seq<int>, r: nat, b: nat, k: nat)
    requires Slot(|st|, r, b, b, k) && b < |nums|
    ensures CreateRunner(st, nums, r, b, b, k).0 == st[r := nums[b]]
  {
  }

  /** Building a node over two indices fills its two leaves and then the node with their sum. */
  lemma CreatePair(st: seq<int>, nums: seq<int>, r: nat, b: nat, k: nat)
    requires Slot(|st|, r, b, b + 1, k) && b + 1 < |nums|
    ensures 2 * r + 2 < |st|
    ensures CreateRunner(st, nums, r, b, b + 1, k).0
         == st[2 * r + 1 := nums[b]][2 * r + 2 := nums[b + 1]][r := nums[b] + nums[b + 1]]
  {
    ChildSlots(|st|, r, b, b + 1, k);
    assert (b + b + 1) / 2 == b;
    CreateLeaf(st, nums, 2 * r + 1, b, k - 1);
    CreateLeaf(st[2 * r + 1 := nums[b]], nums, 2 * r + 2, b + 1, k - 1);
  }

  /** `new` then `create` on [-1, 7, 1], as the source's test of three items expects. */
  lemma BuildThree()
    ensures Build([-1, 7, 1]) == Vectors([7, 6, 1, -1, 7, I32Max, I32Max], [0, 0, 0, 0, 0, 0, 0])
  {
    var nums := [-1, 7, 1];
    assert CeilLog2(3) == 2 && TreeSize(3) == 7;
    var v0 := New(3);
    assert v0.st == [I32Max, I32Max, I32Max, I32Max, I32Max, I32Max, I32Max];
    assert v0.lazy == [0, 0, 0, 0, 0, 0, 0];
    RootSlot(3);
    ChildSlots(7, 0, 0, 2, 2);
    CreatePair(v0.st, nums, 1, 0, 1);
    var s1 := v0.st[3 := -1][4 := 7][1 := 6];
    CreateLeaf(s1, nums, 2, 2, 1);
    assert s1[2 := 1][0 := 7] == [7, 6, 1, -1, 7, I32Max, I32Max];
  }

  /** The tree of [-1, 7, 1] after `modify(0, 2, 5)`: the root is covered and tags both children. */
  lemma AssignFiveToThree()
    ensures Modify(Build([-1, 7, 1]), 3, 0, 2, 5)
         == Vectors([15, 6, 1, -1, 7, I32Max, I32Max], [0, 5, 5, 0, 0, 0, 0])
  {
    BuildThree();
    var v := Vectors([7, 6, 1, -1, 7, I32Max, I32Max], [0, 0, 0, 0, 0, 0, 0]);
    assert CeilLog2(3) == 2 && Pow2(2) == 4;
    assert Flush(v, 0, UpdateWidth(0, 2)) == v;
    assert v.st[0 := 15] == [15, 6, 1, -1, 7, I32Max, I32Max];
    assert v.lazy[1 := 5][2 := 5] == [0, 5, 5, 0, 0, 0, 0];
  }

  /**
   * The flush in `sum_runner` loses an assignment: on [-1, 7, 1], assigning 5
   * everywhere and then asking for the sum over [0, 1] answers 0, where the
   * elements are 5, 5, 5 and the sum is 10. The tagged node for [0, 1] is
   * flushed to 5 * (0 - 1 + 1) = 0 and, being covered, answers that.
   */
  lemma QueryFlushLosesAssignment()
    ensures Sum(Modify(Build([-1, 7, 1]), 3, 0, 2, 5), 3, 0, 1).1 == 0
    ensures RangeSum(Overwrite([-1, 7, 1], 0, 2, 5), 0, 1) == 10
  {
    AssignFiveToThree();
    var v := Vectors([15, 6, 1, -1, 7, I32Max, I32Max], [0, 5, 5, 0, 0, 0, 0]);
    assert CeilLog2(3) == 2 && Pow2(2) == 4;
    assert Flush(v, 0, QueryWidth(0, 2)) == v;
    var v1 := Flush(v, 1, QueryWidth(0, 1));
    assert v1.st[1] == 0;
    assert SumRunner(v, 1, 0, 1, 1, 0, 1).1 == 0;
    assert Overwrite([-1, 7, 1], 0, 2, 5) == [5, 5, 5];
  }

  /** `new` then `create` on [-1, 7], as the source's test of two items expects. */
  lemma BuildTwo()
    ensures Build([-1, 7]) == Vectors([6, -1, 7], [0, 0, 0])
  {
    assert CeilLog2(2) == 1 && TreeSize(2) == 3;
    var v0 := New(2);
    assert v0.st == [I32Max, I32Max, I32Max] && v0.lazy == [0, 0, 0];
    RootSlot(2);
    CreatePair(v0.st, [-1, 7], 0, 0, 1);
    assert v0.st[1 := -1][2 := 7][0 := 6] == [6, -1, 7];
  }

  /**
   * The tag 0 is the sentinel for "no pending assignment", so assigning 0
   * is lost: on [-1, 7], assigning 0 everywhere tags both children with 0,
   * which reads as untagged, and the sum over [0, 0] then answers the old
   * -1 where the element is 0.
   */
  lemma ZeroAssignmentLost()
    ensures Modify(Build([-1, 7]), 2, 0, 1, 0) == Vectors([0, -1, 7], [0, 0, 0])
    ensures Sum(Modify(Build([-1, 7]), 2, 0, 1, 0), 2, 0, 0).1 == -1
    ensures RangeSum(Overwrite([-1, 7], 0, 1, 0), 0, 0) == 0
  {
    BuildTwo();
    var v := Vectors([6, -1, 7], [0, 0, 0]);
    assert CeilLog2(2) == 1 && Pow2(1) == 2;
    assert Flush(v, 0, UpdateWidth(0, 1)) == v;
    assert v.st[0 := 0] == [0, -1, 7];
    assert v.lazy[1 := 0][2 := 0] == [0, 0, 0];
    var v' := Vectors([0, -1, 7], [0, 0, 0]);
    assert Flush(v', 0, QueryWidth(0, 1)) == v';
    assert Flush(v', 1, QueryWidth(0, 0)) == v';
    assert SumRunner(v', 1, 0, 0, 0, 0, 0).1 == -1;
    assert Overwrite([-1, 7], 0, 1, 0) == [0, 0];
  }
}
