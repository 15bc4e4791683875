/**
 * One step of each recursive walk of the segment tree, stated on snapshots
 * of the two vectors. Each walk's outcome at a node is one predicate
 * relating the vectors before and after the call (Settled for a flush,
 * Assigned for `modify_runner`, Queried for `sum_runner`, Grown for
 * `create_runner`), and each branch of the walk has a lemma that
 * establishes that predicate from what the branch did.
 */
module RunnerSteps {
  import opened TreeLayout
  import opened RangeSpec
  import opened Representation

  /** What the runners ask of node r: both vectors have the same length and the subtree is sound. */
  ghost predicate Ready(st: seq<int>, lz: seq<Tag>, r: nat, b: nat, e: nat) {
    |lz| == |st| && Sound(st, lz, r, b, e)
  }

  /**
   * (st', lz') is (st, lz) with node r flushed: r is untagged, its subtree is
   * sound and stands for the same elements, and nothing outside it changed.
   */
  ghost predicate Settled(st: seq<int>, lz: seq<Tag>, st': seq<int>, lz': seq<Tag>, r: nat, b: nat, e: nat) {
    AgreeOutside(st, lz, st', lz', r) && r < |lz'| && lz'[r].None? && Sound(st', lz', r, b, e)
    && Denote(st', lz', r, b, e) == Denote(st, lz, r, b, e)
  }

  /**
   * (st', lz') is (st, lz) after assigning v over [qb, qe] at node r: r is
   * untagged, its subtree is sound (so its st slot holds the sum of its new
   * elements, NodeHoldsSum), it stands for the old elements with those of
   * [qb, qe] replaced by v, and nothing outside it changed.
   */
  ghost predicate Assigned(st: seq<int>, lz: seq<Tag>, st': seq<int>, lz': seq<Tag>,
                           r: nat, b: nat, e: nat, qb: int, qe: int, v: int) {
    AgreeOutside(st, lz, st', lz', r) && r < |lz'| && lz'[r].None? && Sound(st', lz', r, b, e)
    && Denote(st', lz', r, b, e) == Overwrite(Denote(st, lz, r, b, e), qb - b, qe - b, v)
  }

  /** A query at node r left it settled and answered total, the sum of its elements in [qb, qe]. */
  ghost predicate Queried(st: seq<int>, lz: seq<Tag>, st': seq<int>, lz': seq<Tag>,
                          r: nat, b: nat, e: nat, qb: int, qe: int, total: int) {
    Settled(st, lz, st', lz', r, b, e) && total == RangeSum(Denote(st, lz, r, b, e), qb - b, qe - b)
  }

  /**
   * st' is st after building node r from nums: every node of the descent
   * holds the sum of nums over its range, and slots off the descent kept
   * their values.
   */
  ghost predicate Grown(st: seq<int>, st': seq<int>, nums: seq<int>, r: nat, b: nat, e: nat) {
    Filled(st', nums, r, b, e) && KeptOffDescent(st, st', r, b, e)
  }

  /**
   * Flushing node r: a tagged node, set to tag * width with the tag copied
   * to its children and its own tag cleared, is settled; an untagged node
   * already is.
   */
  lemma FlushSettles(st: seq<int>, lz: seq<Tag>, r: nat, b: nat, e: nat, k: nat)
    requires Slot(|st|, r, b, e, k) && Ready(st, lz, r, b, e)
    ensures lz[r].None? ==> Settled(st, lz, st, lz, r, b, e)
    ensures lz[r].Some? ==>
      Settled(st, lz, st[r := lz[r].value * (e - b + 1)], PushTag(lz, r, lz[r].value)[r := None], r, b, e)
  {
    assert InSubtree(r, r);
    if lz[r].Some? {
      FlushTagged(st, lz, r, b, e, k, lz[r].value);
    }
  }

  /** A node tagged t is settled by setting it to t * width, copying t to its children and untagging it. */
  lemma FlushTagged(st: seq<int>, lz: seq<Tag>, r: nat, b: nat, e: nat, k: nat, t: int)
    requires Slot(|st|, r, b, e, k) && Ready(st, lz, r, b, e) && lz[r] == Some(t)
    ensures Settled(st, lz, st[r := t * (e - b + 1)], PushTag(lz, r, t)[r := None], r, b, e)
  {
    var lz0 := lz[r := None];
    assert PushTag(lz0, r, t) == PushTag(lz, r, t)[r := None];
    if b < e {
      ChildSlots(|st|, r, b, e, k);
    }
    SettledNode(st, lz0, r, b, e, t);
    assert InSubtree(r, r);
    assert InSubtree(2 * r + 1, r) && InSubtree(2 * r + 2, r) by {
      assert (2 * r) / 2 == r && (2 * r + 1) / 2 == r;
    }
  }

  /** Full cover: a settled node set to v * width with both children tagged v has been assigned. */
  lemma CoverAssigns(st: seq<int>, lz: seq<Tag>, st0: seq<int>, lz0: seq<Tag>,
                     r: nat, b: nat, e: nat, k: nat, qb: int, qe: int, v: int)
    requires Slot(|st|, r, b, e, k) && Settled(st, lz, st0, lz0, r, b, e)
    requires qb <= b && e <= qe
    ensures Assigned(st, lz, st0[r := v * (e - b + 1)], PushTag(lz0, r, v), r, b, e, qb, qe, v)
  {
    if b < e {
      ChildSlots(|st|, r, b, e, k);
    }
    SettledNode(st0, lz0, r, b, e, v);
    OverwriteCovered(Denote(st, lz, r, b, e), qb - b, qe - b, v);
    assert InSubtree(r, r);
    assert InSubtree(2 * r + 1, r) && InSubtree(2 * r + 2, r) by {
      assert (2 * r) / 2 == r && (2 * r + 1) / 2 == r;
    }
  }

  /** No overlap: a settled node whose range misses [qb, qe] has been assigned as it is. */
  lemma MissAssigns(st: seq<int>, lz: seq<Tag>, st0: seq<int>, lz0: seq<Tag>,
                    r: nat, b: nat, e: nat, qb: int, qe: int, v: int)
    requires Settled(st, lz, st0, lz0, r, b, e) && b <= e
    requires qe < b || qb > e
    ensures Assigned(st, lz, st0, lz0, r, b, e, qb, qe, v)
  {
    OverwriteMissed(Denote(st, lz, r, b, e), qb - b, qe - b, v);
  }

  /** Descending from a settled inner node: its left child is ready. */
  lemma LeftChildReady(st: seq<int>, lz: seq<Tag>, st0: seq<int>, lz0: seq<Tag>, r: nat, b: nat, e: nat)
    requires Settled(st, lz, st0, lz0, r, b, e) && b < e
    ensures Ready(st0, lz0, 2 * r + 1, b, (b + e) / 2)
  {
  }

  /**
   * Between the two recursive calls: a change confined to the left child's
   * subtree leaves the right child ready.
   */
  lemma RightChildReady(st: seq<int>, lz: seq<Tag>, st0: seq<int>, lz0: seq<Tag>, st1: seq<int>, lz1: seq<Tag>,
                        r: nat, b: nat, e: nat)
    requires Settled(st, lz, st0, lz0, r, b, e) && b < e
    requires AgreeOutside(st0, lz0, st1, lz1, 2 * r + 1)
    ensures Ready(st1, lz1, 2 * r + 2, (b + e) / 2 + 1, e)
  {
    ChildConfined(st0, lz0, st1, lz1, r, 2 * r + 1);
    SoundFrame(st0, lz0, st1, lz1, 2 * r + 2, (b + e) / 2 + 1, e);
  }

  /**
   * Partial overlap: after the node was settled and both children were
   * assigned in turn, setting st[r] to their two results completes the
   * assignment at r.
   */
  lemma AssignJoin(st: seq<int>, lz: seq<Tag>, st0: seq<int>, lz0: seq<Tag>, st1: seq<int>, lz1: seq<Tag>,
                   st2: seq<int>, lz2: seq<Tag>, r: nat, b: nat, e: nat,
                   qb: int, qe: int, v: int, left: int, right: int)
    requires Settled(st, lz, st0, lz0, r, b, e) && b < e
    requires Assigned(st0, lz0, st1, lz1, 2 * r + 1, b, (b + e) / 2, qb, qe, v)
    requires Assigned(st1, lz1, st2, lz2, 2 * r + 2, (b + e) / 2 + 1, e, qb, qe, v)
    requires left == st1[2 * r + 1] && right == st2[2 * r + 2]
    ensures Assigned(st, lz, st2[r := left + right], lz2, r, b, e, qb, qe, v)
  {
    var mid := (b + e) / 2;
    JoinFrames(st0, lz0, st1, lz1, st2, lz2, r, left + right);
    NodeHoldsSum(st1, lz1, 2 * r + 1, b, mid);
    NodeHoldsSum(st2, lz2, 2 * r + 2, mid + 1, e);
    AssignJoinSound(st1, lz1, st2, lz2, r, b, e, left, right);
    AssignJoinDenote(st0, lz0, st1, lz1, st2, lz2, r, b, e, qb, qe, v, left + right);
    AgreeOutsideTrans(st, lz, st0, lz0, st2[r := left + right], lz2, r);
  }

  /** Full cover: a settled node answers its st slot. */
  lemma QueryCover(st: seq<int>, lz: seq<Tag>, st0: seq<int>, lz0: seq<Tag>,
                   r: nat, b: nat, e: nat, qb: int, qe: int)
    requires Settled(st, lz, st0, lz0, r, b, e) && b <= e
    requires qb <= b && e <= qe
    ensures r < |st0| && Queried(st, lz, st0, lz0, r, b, e, qb, qe, st0[r])
  {
    NodeHoldsSum(st0, lz0, r, b, e);
    RangeSumCovered(Denote(st, lz, r, b, e), qb - b, qe - b);
  }

  /** No overlap: a settled node answers 0. */
  lemma QueryMiss(st: seq<int>, lz: seq<Tag>, st0: seq<int>, lz0: seq<Tag>,
                  r: nat, b: nat, e: nat, qb: int, qe: int)
    requires Settled(st, lz, st0, lz0, r, b, e) && b <= e
    requires qb > e || qe < b
    ensures Queried(st, lz, st0, lz0, r, b, e, qb, qe, 0)
  {
    RangeSumMissed(Denote(st, lz, r, b, e), qb - b, qe - b);
  }

  /** Partial overlap: the two children's answers add up to the node's. */
  lemma QueryJoin(st: seq<int>, lz: seq<Tag>, st0: seq<int>, lz0: seq<Tag>, st1: seq<int>, lz1: seq<Tag>,
                  st2: seq<int>, lz2: seq<Tag>, r: nat, b: nat, e: nat,
                  qb: int, qe: int, left: int, right: int)
    requires Settled(st, lz, st0, lz0, r, b, e) && b < e
    requires Queried(st0, lz0, st1, lz1, 2 * r + 1, b, (b + e) / 2, qb, qe, left)
    requires Queried(st1, lz1, st2, lz2, 2 * r + 2, (b + e) / 2 + 1, e, qb, qe, right)
    ensures Queried(st, lz, st2, lz2, r, b, e, qb, qe, right + left)
  {
    JoinFrames(st0, lz0, st1, lz1, st2, lz2, r, st2[r]);
    assert st2[r := st2[r]] == st2;
    QueryJoinKept(st0, lz0, st1, lz1, st2, lz2, r, b, e);
    DenoteFrame(st0, lz0, st1, lz1, 2 * r + 2, (b + e) / 2 + 1, e);
    SumSplits(st0, lz0, r, b, e, qb, qe);
    AgreeOutsideTrans(st, lz, st0, lz0, st2, lz2, r);
  }

  /** A leaf is built by copying its element. */
  lemma LeafGrown(st: seq<int>, nums: seq<int>, r: nat, b: nat)
    requires r < |st| && b < |nums|
    ensures Grown(st, st[r := nums[b]], nums, r, b, b)
  {
    SeqSumSingle(nums, b);
  }

  /** An inner node is built by setting it to its two built children's sums. */
  lemma BuildJoin(st0: seq<int>, st1: seq<int>, st2: seq<int>, nums: seq<int>,
                  r: nat, b: nat, e: nat, left: int, right: int)
    requires b < e && 2 * r + 2 < |st0|
    requires Grown(st0, st1, nums, 2 * r + 1, b, (b + e) / 2)
    requires Grown(st1, st2, nums, 2 * r + 2, (b + e) / 2 + 1, e)
    requires left == st1[2 * r + 1] && right == st2[2 * r + 2]
    ensures Grown(st0, st2[r := left + right], nums, r, b, e)
  {
    BuildChildren(st0, st1, st2, nums, r, b, e, left, right);
  }
}
