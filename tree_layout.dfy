/**
 * Index arithmetic of the implicit complete binary tree that a segment tree
 * keeps in flat vectors: the root is slot 0, the children of slot r are the
 * slots 2r+1 and 2r+2, and a node covering the index range [b, e] hands
 * [b, mid] to its left child and [mid+1, e] to its right child, where
 * mid = (b + e) / 2.
 */
module TreeLayout {

  /** The value that fresh st slots hold: the largest signed 32-bit integer. */
  const I32Max: int := 0x7fff_ffff

  /** 2 to the power k. */
  function Pow2(k: nat): (p: nat)
    ensures p >= 1
  {
    if k == 0 then 1 else 2 * Pow2(k - 1)
  }

  /** ceil(log2 n): the least k with n <= 2^k. */
  function CeilLog2(n: nat): (k: nat)
    requires n >= 1
    ensures n <= Pow2(k)
    ensures k > 0 ==> Pow2(k - 1) < n
    decreases n
  {
    if n == 1 then 0 else CeilLog2((n + 1) / 2) + 1
  }

  /** Number of slots allocated for n elements: 2 * 2^ceil(log2 n) - 1. */
  function TreeSize(n: nat): (size: nat)
    requires n >= 1
    ensures 2 * n - 1 <= size <= 4 * n - 3
  {
    var k := CeilLog2(n);
    assert k > 0 ==> Pow2(k) == 2 * Pow2(k - 1);
    2 * Pow2(k) - 1
  }

  /**
   * Slot r of a tree with L slots can hold the node for [b, e] at height k:
   * the range fits under 2^k leaves and the complete subtree of height k
   * below r fits in the L slots.
   */
  ghost predicate Slot(L: nat, r: nat, b: nat, e: nat, k: nat) {
    b <= e && e - b + 1 <= Pow2(k) && r < L && (r + 2) * Pow2(k) <= L + 1
  }

  /** The root covers [0, n-1] in a tree of TreeSize(n) slots. */
  lemma RootSlot(n: nat)
    requires n >= 1
    ensures Slot(TreeSize(n), 0, 0, n - 1, CeilLog2(n))
  {
  }

  /**
   * Splitting a node that covers more than one index: both children are in
   * bounds, their ranges partition the parent's range, each is strictly
   * smaller, and each again fits its slot one level lower.
   */
  lemma ChildSlots(L: nat, r: nat, b: nat, e: nat, k: nat)
    requires Slot(L, r, b, e, k) && b < e
    ensures k >= 1 && 2 * r + 2 < L
    ensures b <= (b + e) / 2 < e
    ensures Slot(L, 2 * r + 1, b, (b + e) / 2, k - 1)
    ensures Slot(L, 2 * r + 2, (b + e) / 2 + 1, e, k - 1)
  {
    assert k >= 1;
    var w := Pow2(k - 1);
    assert Pow2(k) == 2 * w;
    var mid := (b + e) / 2;
    assert mid - b + 1 <= w;
    assert e - mid <= w;
    calc {
      (2 * r + 3) * w;
    <=
      (2 * r + 4) * w;
    ==
      (r + 2) * (2 * w);
    <=
      L + 1;
    }
    assert 2 * r + 4 <= (2 * r + 4) * w;
  }

  /** Slot i lies in the subtree rooted at slot r (r is i or one of its ancestors). */
  ghost predicate InSubtree(i: nat, r: nat)
    decreases i
  {
    i == r || (i > r && InSubtree((i - 1) / 2, r))
  }

  /** The subtree of a child lies inside its parent's subtree and misses the parent. */
  lemma {:induction false} ChildSubtreeInside(i: nat, r: nat, c: nat)
    requires c == 2 * r + 1 || c == 2 * r + 2
    ensures InSubtree(i, c) ==> InSubtree(i, r) && i != r
    decreases i
  {
    if i == c {
      assert (i - 1) / 2 == r;
      assert InSubtree(r, r);
    } else if i > c {
      ChildSubtreeInside((i - 1) / 2, r, c);
    }
  }

  /** The subtrees of two siblings share no slot. */
  lemma {:induction false} SiblingSubtreesDisjoint(i: nat, r: nat)
    ensures InSubtree(i, 2 * r + 1) ==> !InSubtree(i, 2 * r + 2)
    decreases i
  {
    if i == 2 * r + 2 {
      assert (i - 1) / 2 == r;
      assert !InSubtree(r, 2 * r + 1);
    } else if i > 2 * r + 2 {
      SiblingSubtreesDisjoint((i - 1) / 2, r);
    }
  }

  /**
   * Slot i is visited by a full descent from r over [b, e]: the walk that
   * `create` makes, which splits every range down to single indices.
   */
  ghost predicate OnDescent(i: nat, r: nat, b: nat, e: nat)
    decreases e - b
  {
    i == r || (b < e && (OnDescent(i, 2 * r + 1, b, (b + e) / 2) || OnDescent(i, 2 * r + 2, (b + e) / 2 + 1, e)))
  }

  /** Every slot a descent from r visits is inside r's subtree. */
  lemma {:induction false} DescentInSubtree(i: nat, r: nat, b: nat, e: nat)
    ensures OnDescent(i, r, b, e) ==> InSubtree(i, r)
    decreases e - b
  {
    if b < e {
      var mid := (b + e) / 2;
      DescentInSubtree(i, 2 * r + 1, b, mid);
      DescentInSubtree(i, 2 * r + 2, mid + 1, e);
      ChildSubtreeInside(i, r, 2 * r + 1);
      ChildSubtreeInside(i, r, 2 * r + 2);
    }
    assert InSubtree(r, r);
  }

  /**
   * The two halves of a descent visit disjoint slots, neither visits the
   * parent, and both lie on the parent's descent.
   */
  lemma DescentsDisjoint(i: nat, r: nat, b: nat, e: nat)
    requires b < e
    ensures OnDescent(i, 2 * r + 1, b, (b + e) / 2) ==> !OnDescent(i, 2 * r + 2, (b + e) / 2 + 1, e)
    ensures OnDescent(i, 2 * r + 1, b, (b + e) / 2) || OnDescent(i, 2 * r + 2, (b + e) / 2 + 1, e)
      ==> i != r && OnDescent(i, r, b, e)
  {
    var mid := (b + e) / 2;
    DescentInSubtree(i, 2 * r + 1, b, mid);
    DescentInSubtree(i, 2 * r + 2, mid + 1, e);
    SiblingSubtreesDisjoint(i, r);
    ChildSubtreeInside(i, r, 2 * r + 1);
    ChildSubtreeInside(i, r, 2 * r + 2);
  }
}
