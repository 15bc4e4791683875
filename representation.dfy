/**
 * What the two flat vectors of a segment tree mean. A node whose lazy slot
 * holds a tag Some(t) stands for t repeated over its whole range (its own
 * st slot and everything below it are stale); an untagged leaf stands for its
 * st slot; an untagged inner node stands for its two halves side by side.
 * The representation invariant (Sound) asks every untagged inner node that
 * has no tagged ancestor to hold in st the sum of what its children stand
 * for; below a tag nothing is required, since the tag overrides it.
 *
 * Every node of the tree lies inside the vectors (TreeLayout.Slot). So that
 * the meaning is defined for any slot, one past the end of the vectors, which
 * no node of the tree uses, is read as zeros.
 */
module Representation {
  import opened TreeLayout
  import opened RangeSpec

  datatype Option<T> = None | Some(value: T)

  /** A pending assignment: Some(t) assigns t to the node's whole range, None is no tag. */
  type Tag = Option<int>

  /**
   * The element at position j as node r, covering [b, e], sees it: the
   * nearest tag on the way down wins; otherwise the leaf's st slot.
   * Positions outside [b, e] read as 0.
   */
  ghost function Elem(st: seq<int>, lz: seq<Tag>, r: nat, b: nat, e: nat, j: int): int
    decreases e - b
  {
    if j < b || e < j || r >= |st| || r >= |lz| then 0
    else if lz[r].Some? then lz[r].value
    else if b == e then st[r]
    else if j <= (b + e) / 2 then Elem(st, lz, 2 * r + 1, b, (b + e) / 2, j)
    else Elem(st, lz, 2 * r + 2, (b + e) / 2 + 1, e, j)
  }

  /** The elements [b, e] that node r stands for. */
  ghost function Denote(st: seq<int>, lz: seq<Tag>, r: nat, b: nat, e: nat): (s: seq<int>)
    ensures |s| == if b <= e then e - b + 1 else 0
    ensures forall i :: 0 <= i < |s| ==> s[i] == Elem(st, lz, r, b, e, b + i)
  {
    seq(if b <= e then e - b + 1 else 0, i => Elem(st, lz, r, b, e, b + i))
  }

  /** An untagged inner node stands for its left half followed by its right half. */
  lemma DenoteSplit(st: seq<int>, lz: seq<Tag>, r: nat, b: nat, e: nat)
    requires r < |st| && r < |lz| && b < e && lz[r].None?
    ensures Denote(st, lz, r, b, e)
         == Denote(st, lz, 2 * r + 1, b, (b + e) / 2) + Denote(st, lz, 2 * r + 2, (b + e) / 2 + 1, e)
  {
    var mid := (b + e) / 2;
    var left := Denote(st, lz, 2 * r + 1, b, mid);
    var right := Denote(st, lz, 2 * r + 2, mid + 1, e);
    forall i | 0 <= i < e - b + 1
      ensures Denote(st, lz, r, b, e)[i] == (left + right)[i]
    {
      if i < |left| {
        assert (left + right)[i] == left[i];
      } else {
        assert (left + right)[i] == right[i - |left|];
      }
    }
  }

  /** A tagged node stands for its tag over its whole range; a slot past the vectors for zeros. */
  lemma DenoteFlat(st: seq<int>, lz: seq<Tag>, r: nat, b: nat, e: nat)
    requires b <= e && (r >= |st| || r >= |lz| || lz[r].Some?)
    ensures Denote(st, lz, r, b, e) == Fill(if r < |st| && r < |lz| then lz[r].value else 0, e - b + 1)
  {
    var t := if r < |st| && r < |lz| then lz[r].value else 0;
    forall i | 0 <= i < e - b + 1
      ensures Denote(st, lz, r, b, e)[i] == Fill(t, e - b + 1)[i]
    {
    }
  }

  /** An untagged leaf stands for its st slot. */
  lemma DenoteLeaf(st: seq<int>, lz: seq<Tag>, r: nat, b: nat)
    requires r < |st| && r < |lz| && lz[r].None?
    ensures Denote(st, lz, r, b, b) == [st[r]]
  {
    assert Denote(st, lz, r, b, b)[0] == st[r];
  }

  /**
   * The sum of the elements node r stands for, computed along the tree: a
   * tag t contributes t times the width, an untagged leaf its st slot, an
   * untagged inner node the totals of its two halves (TotalIsSum).
   */
  ghost function Total(st: seq<int>, lz: seq<Tag>, r: nat, b: nat, e: nat): int
    decreases e - b
  {
    if e < b || r >= |st| || r >= |lz| then 0
    else if lz[r].Some? then lz[r].value * (e - b + 1)
    else if b == e then st[r]
    else Total(st, lz, 2 * r + 1, b, (b + e) / 2) + Total(st, lz, 2 * r + 2, (b + e) / 2 + 1, e)
  }

  /**
   * The representation invariant of the subtree at r: every untagged inner
   * node with no tagged ancestor holds its children's totals.
   */
  ghost predicate Sound(st: seq<int>, lz: seq<Tag>, r: nat, b: nat, e: nat)
    decreases e - b
  {
    if e <= b || r >= |st| || r >= |lz| || lz[r].Some? then true
    else
      var mid := (b + e) / 2;
      st[r] == Total(st, lz, 2 * r + 1, b, mid) + Total(st, lz, 2 * r + 2, mid + 1, e)
      && Sound(st, lz, 2 * r + 1, b, mid) && Sound(st, lz, 2 * r + 2, mid + 1, e)
  }

  /** Total is the sum of the elements the node stands for. */
  lemma {:induction false} TotalIsSum(st: seq<int>, lz: seq<Tag>, r: nat, b: nat, e: nat)
    ensures Total(st, lz, r, b, e) == SeqSum(Denote(st, lz, r, b, e))
    decreases e - b
  {
    if e < b {
      assert Denote(st, lz, r, b, e) == [];
    } else if r >= |st| || r >= |lz| || lz[r].Some? {
      DenoteFlat(st, lz, r, b, e);
      SeqSumFill(if r < |st| && r < |lz| then lz[r].value else 0, e - b + 1);
    } else if b < e {
      var mid := (b + e) / 2;
      TotalIsSum(st, lz, 2 * r + 1, b, mid);
      TotalIsSum(st, lz, 2 * r + 2, mid + 1, e);
      DenoteSplit(st, lz, r, b, e);
      SeqSumConcat(Denote(st, lz, 2 * r + 1, b, mid), Denote(st, lz, 2 * r + 2, mid + 1, e));
    } else {
      DenoteLeaf(st, lz, r, b);
    }
  }

  /** Under the invariant, an untagged node's st slot is the sum of what it stands for. */
  lemma NodeHoldsSum(st: seq<int>, lz: seq<Tag>, r: nat, b: nat, e: nat)
    requires r < |st| && r < |lz| && b <= e && lz[r].None? && Sound(st, lz, r, b, e)
    ensures st[r] == Total(st, lz, r, b, e) == SeqSum(Denote(st, lz, r, b, e))
  {
    TotalIsSum(st, lz, r, b, e);
  }

  /** The lazy vector after tag t is copied to both children of r, when they are in bounds. */
  function PushTag(lz: seq<Tag>, r: nat, t: int): (lz': seq<Tag>)
    ensures |lz'| == |lz|
  {
    if 2 * r + 2 < |lz| then lz[2 * r + 1 := Some(t)][2 * r + 2 := Some(t)] else lz
  }

  /**
   * Settling an untagged node to the value t (st[r] := t * width, both
   * children tagged t) makes it stand for t over its whole range and keeps
   * its subtree sound.
   */
  lemma SettledNode(st: seq<int>, lz: seq<Tag>, r: nat, b: nat, e: nat, t: int)
    requires r < |st| == |lz| && b <= e && lz[r].None?
    requires b < e ==> 2 * r + 2 < |st|
    ensures Denote(st[r := t * (e - b + 1)], PushTag(lz, r, t), r, b, e) == Fill(t, e - b + 1)
    ensures Sound(st[r := t * (e - b + 1)], PushTag(lz, r, t), r, b, e)
  {
    var st', lz' := st[r := t * (e - b + 1)], PushTag(lz, r, t);
    if b < e {
      var mid := (b + e) / 2;
      assert lz'[r] == None && lz'[2 * r + 1] == Some(t) && lz'[2 * r + 2] == Some(t);
      assert t * (e - b + 1) == t * (mid - b + 1) + t * (e - mid);
    }
    forall i | 0 <= i < e - b + 1
      ensures Denote(st', lz', r, b, e)[i] == Fill(t, e - b + 1)[i]
    {
      if b == e {
        assert t * (e - b + 1) == t;
      } else if b + i <= (b + e) / 2 {
        assert Elem(st', lz', 2 * r + 1, b, (b + e) / 2, b + i) == t;
      } else {
        assert Elem(st', lz', 2 * r + 2, (b + e) / 2 + 1, e, b + i) == t;
      }
    }
  }

  /** st and lz agree at every slot of r's subtree. */
  ghost predicate AgreeInside(st: seq<int>, lz: seq<Tag>, st': seq<int>, lz': seq<Tag>, r: nat) {
    |st'| == |st| && |lz| == |st| && |lz'| == |st| &&
    forall i {:trigger InSubtree(i, r)} :: 0 <= i < |st| && InSubtree(i, r) ==> st'[i] == st[i] && lz'[i] == lz[i]
  }

  /** st and lz agree at every slot outside r's subtree. */
  ghost predicate AgreeOutside(st: seq<int>, lz: seq<Tag>, st': seq<int>, lz': seq<Tag>, r: nat) {
    |st'| == |st| && |lz| == |st| && |lz'| == |st| &&
    forall i {:trigger InSubtree(i, r)} :: 0 <= i < |st| && !InSubtree(i, r) ==> st'[i] == st[i] && lz'[i] == lz[i]
  }

  /** Agreement on a subtree is agreement on each child's subtree. */
  lemma AgreeInsideChild(st: seq<int>, lz: seq<Tag>, st': seq<int>, lz': seq<Tag>, r: nat, c: nat)
    requires c == 2 * r + 1 || c == 2 * r + 2
    requires AgreeInside(st, lz, st', lz', r)
    ensures AgreeInside(st, lz, st', lz', c)
  {
    forall i | 0 <= i < |st| && InSubtree(i, c)
      ensures st'[i] == st[i] && lz'[i] == lz[i]
    {
      ChildSubtreeInside(i, r, c);
    }
  }

  /** The element a subtree shows at any position depends on its own slots only. */
  lemma {:induction false} ElemFrame(st: seq<int>, lz: seq<Tag>, st': seq<int>, lz': seq<Tag>,
                                     r: nat, b: nat, e: nat, j: int)
    requires AgreeInside(st, lz, st', lz', r)
    ensures Elem(st', lz', r, b, e, j) == Elem(st, lz, r, b, e, j)
    decreases e - b
  {
    assert InSubtree(r, r);
    if b < e && r < |st| && lz[r].None? {
      if j <= (b + e) / 2 {
        AgreeInsideChild(st, lz, st', lz', r, 2 * r + 1);
        ElemFrame(st, lz, st', lz', 2 * r + 1, b, (b + e) / 2, j);
      } else {
        AgreeInsideChild(st, lz, st', lz', r, 2 * r + 2);
        ElemFrame(st, lz, st', lz', 2 * r + 2, (b + e) / 2 + 1, e, j);
      }
    }
  }

  /** What a subtree stands for depends on its own slots only. */
  lemma DenoteFrame(st: seq<int>, lz: seq<Tag>, st': seq<int>, lz': seq<Tag>, r: nat, b: nat, e: nat)
    requires AgreeInside(st, lz, st', lz', r)
    ensures Denote(st', lz', r, b, e) == Denote(st, lz, r, b, e)
  {
    forall i | 0 <= i < |Denote(st, lz, r, b, e)|
      ensures Denote(st', lz', r, b, e)[i] == Denote(st, lz, r, b, e)[i]
    {
      ElemFrame(st, lz, st', lz', r, b, e, b + i);
    }
  }

  /** A subtree's total depends on its own slots only. */
  lemma {:induction false} TotalFrame(st: seq<int>, lz: seq<Tag>, st': seq<int>, lz': seq<Tag>, r: nat, b: nat, e: nat)
    requires AgreeInside(st, lz, st', lz', r)
    ensures Total(st', lz', r, b, e) == Total(st, lz, r, b, e)
    decreases e - b
  {
    assert InSubtree(r, r);
    if b < e && r < |st| && lz[r].None? {
      AgreeInsideChild(st, lz, st', lz', r, 2 * r + 1);
      AgreeInsideChild(st, lz, st', lz', r, 2 * r + 2);
      TotalFrame(st, lz, st', lz', 2 * r + 1, b, (b + e) / 2);
      TotalFrame(st, lz, st', lz', 2 * r + 2, (b + e) / 2 + 1, e);
    }
  }

  /** A sound subtree stays sound when only slots outside it change. */
  lemma {:induction false} SoundFrame(st: seq<int>, lz: seq<Tag>, st': seq<int>, lz': seq<Tag>, r: nat, b: nat, e: nat)
    requires AgreeInside(st, lz, st', lz', r) && Sound(st, lz, r, b, e)
    ensures Sound(st', lz', r, b, e)
    decreases e - b
  {
    assert InSubtree(r, r);
    if b < e && r < |st| && lz[r].None? {
      var mid := (b + e) / 2;
      AgreeInsideChild(st, lz, st', lz', r, 2 * r + 1);
      AgreeInsideChild(st, lz, st', lz', r, 2 * r + 2);
      TotalFrame(st, lz, st', lz', 2 * r + 1, b, mid);
      TotalFrame(st, lz, st', lz', 2 * r + 2, mid + 1, e);
      SoundFrame(st, lz, st', lz', 2 * r + 1, b, mid);
      SoundFrame(st, lz, st', lz', 2 * r + 2, mid + 1, e);
    }
  }

  /**
   * A change confined to the subtree of child c of r is confined to r's
   * subtree, leaves slot r alone and leaves the sibling's subtree alone.
   */
  lemma ChildConfined(st: seq<int>, lz: seq<Tag>, st': seq<int>, lz': seq<Tag>, r: nat, c: nat)
    requires c == 2 * r + 1 || c == 2 * r + 2
    requires AgreeOutside(st, lz, st', lz', c)
    ensures AgreeOutside(st, lz, st', lz', r)
    ensures r < |st| ==> st'[r] == st[r] && lz'[r] == lz[r]
    ensures AgreeInside(st, lz, st', lz', if c == 2 * r + 1 then 2 * r + 2 else 2 * r + 1)
  {
    var sibling := if c == 2 * r + 1 then 2 * r + 2 else 2 * r + 1;
    forall i | 0 <= i < |st|
      ensures !InSubtree(i, r) ==> !InSubtree(i, c)
      ensures InSubtree(i, sibling) ==> !InSubtree(i, c)
      ensures i == r ==> !InSubtree(i, c)
    {
      ChildSubtreeInside(i, r, c);
      SiblingSubtreesDisjoint(i, r);
    }
    ChildSubtreeInside(r, r, c);
    assert !InSubtree(r, c);
  }

  /** A change at slot r alone leaves both children's subtrees alone. */
  lemma OwnSlotOnly(st: seq<int>, lz: seq<Tag>, r: nat, x: int)
    requires r < |st| == |lz|
    ensures AgreeInside(st, lz, st[r := x], lz, 2 * r + 1)
    ensures AgreeInside(st, lz, st[r := x], lz, 2 * r + 2)
  {
  }

  /** Agreement outside a subtree is transitive. */
  lemma AgreeOutsideTrans(st: seq<int>, lz: seq<Tag>, st': seq<int>, lz': seq<Tag>,
                          st'': seq<int>, lz'': seq<Tag>, r: nat)
    requires AgreeOutside(st, lz, st', lz', r) && AgreeOutside(st', lz', st'', lz'', r)
    ensures AgreeOutside(st, lz, st'', lz'', r)
  {
  }

  /**
   * The frames of a partial-overlap step at r: a change confined to the left
   * child's subtree (st0 to st1), then one confined to the right child's
   * (st1 to st2), then a write at r. The right child's subtree is untouched
   * by the first, the left child's by the second and by the write, the
   * right child's by the write, and nothing outside r's subtree changes.
   */
  lemma JoinFrames(st0: seq<int>, lz0: seq<Tag>, st1: seq<int>, lz1: seq<Tag>, st2: seq<int>, lz2: seq<Tag>,
                   r: nat, x: int)
    requires r < |st0| && AgreeOutside(st0, lz0, st1, lz1, 2 * r + 1) && AgreeOutside(st1, lz1, st2, lz2, 2 * r + 2)
    ensures AgreeInside(st0, lz0, st1, lz1, 2 * r + 2)
    ensures AgreeInside(st1, lz1, st2, lz2, 2 * r + 1)
    ensures AgreeInside(st1, lz1, st2[r := x], lz2, 2 * r + 1)
    ensures AgreeInside(st2, lz2, st2[r := x], lz2, 2 * r + 2)
    ensures st2[r] == st0[r] && lz2[r] == lz0[r]
    ensures AgreeOutside(st0, lz0, st2[r := x], lz2, r)
  {
    ChildConfined(st0, lz0, st1, lz1, r, 2 * r + 1);
    ChildConfined(st1, lz1, st2, lz2, r, 2 * r + 2);
    OwnSlotOnly(st2, lz2, r, x);
    ChildSubtreeInside(r, r, 2 * r + 1);
    assert InSubtree(r, r);
  }

  /** Two states in which a node stands for the same elements give it the same total. */
  lemma SameTotal(st: seq<int>, lz: seq<Tag>, st': seq<int>, lz': seq<Tag>, c: nat, b: nat, e: nat)
    requires Denote(st', lz', c, b, e) == Denote(st, lz, c, b, e)
    ensures Total(st', lz', c, b, e) == Total(st, lz, c, b, e)
  {
    TotalIsSum(st, lz, c, b, e);
    TotalIsSum(st', lz', c, b, e);
  }

  /** An untagged inner node whose st slot holds its sound children's totals is sound. */
  lemma JoinSound(st: seq<int>, lz: seq<Tag>, r: nat, b: nat, e: nat)
    requires r < |st| == |lz| && b < e && lz[r].None?
    requires Sound(st, lz, 2 * r + 1, b, (b + e) / 2) && Sound(st, lz, 2 * r + 2, (b + e) / 2 + 1, e)
    requires st[r] == Total(st, lz, 2 * r + 1, b, (b + e) / 2) + Total(st, lz, 2 * r + 2, (b + e) / 2 + 1, e)
    ensures Sound(st, lz, r, b, e)
  {
  }

  /**
   * An untagged inner node whose children stand for the assignment of v over
   * [qb, qe] applied to what they stood for in (st0, lz0) stands for that
   * assignment applied to what it stood for.
   */
  lemma JoinAssigned(st0: seq<int>, lz0: seq<Tag>, st: seq<int>, lz: seq<Tag>,
                     r: nat, b: nat, e: nat, qb: int, qe: int, v: int)
    requires r < |st0| == |lz0| == |st| == |lz| && b < e && lz0[r].None? && lz[r].None?
    requires Denote(st, lz, 2 * r + 1, b, (b + e) / 2)
          == Overwrite(Denote(st0, lz0, 2 * r + 1, b, (b + e) / 2), qb - b, qe - b, v)
    requires Denote(st, lz, 2 * r + 2, (b + e) / 2 + 1, e)
          == Overwrite(Denote(st0, lz0, 2 * r + 2, (b + e) / 2 + 1, e), qb - ((b + e) / 2 + 1), qe - ((b + e) / 2 + 1), v)
    ensures Denote(st, lz, r, b, e) == Overwrite(Denote(st0, lz0, r, b, e), qb - b, qe - b, v)
  {
    var mid := (b + e) / 2;
    DenoteSplit(st0, lz0, r, b, e);
    DenoteSplit(st, lz, r, b, e);
    OverwriteConcat(Denote(st0, lz0, 2 * r + 1, b, mid), Denote(st0, lz0, 2 * r + 2, mid + 1, e), qb - b, qe - b, v);
  }

  /** An untagged inner node whose children stand for what they stood for in (st0, lz0) does too. */
  lemma JoinKept(st0: seq<int>, lz0: seq<Tag>, st: seq<int>, lz: seq<Tag>, r: nat, b: nat, e: nat)
    requires r < |st0| == |lz0| == |st| == |lz| && b < e && lz0[r].None? && lz[r].None?
    requires Denote(st, lz, 2 * r + 1, b, (b + e) / 2) == Denote(st0, lz0, 2 * r + 1, b, (b + e) / 2)
    requires Denote(st, lz, 2 * r + 2, (b + e) / 2 + 1, e) == Denote(st0, lz0, 2 * r + 2, (b + e) / 2 + 1, e)
    ensures Denote(st, lz, r, b, e) == Denote(st0, lz0, r, b, e)
  {
    DenoteSplit(st0, lz0, r, b, e);
    DenoteSplit(st, lz, r, b, e);
  }

  /** The range sum over an untagged inner node splits into the range sums over its children. */
  lemma SumSplits(st: seq<int>, lz: seq<Tag>, r: nat, b: nat, e: nat, qb: int, qe: int)
    requires r < |st| == |lz| && b < e && lz[r].None?
    ensures RangeSum(Denote(st, lz, r, b, e), qb - b, qe - b)
         == RangeSum(Denote(st, lz, 2 * r + 1, b, (b + e) / 2), qb - b, qe - b)
          + RangeSum(Denote(st, lz, 2 * r + 2, (b + e) / 2 + 1, e), qb - ((b + e) / 2 + 1), qe - ((b + e) / 2 + 1))
  {
    var mid := (b + e) / 2;
    DenoteSplit(st, lz, r, b, e);
    RangeSumConcat(Denote(st, lz, 2 * r + 1, b, mid), Denote(st, lz, 2 * r + 2, mid + 1, e), qb - b, qe - b);
  }

  /**
   * Partial-overlap assignment, soundness: after the left child was assigned
   * (its new total is left) and then the right child (its new total is
   * right), writing left + right at r makes r sound.
   */
  lemma AssignJoinSound(st1: seq<int>, lz1: seq<Tag>, st2: seq<int>, lz2: seq<Tag>,
                        r: nat, b: nat, e: nat, left: int, right: int)
    requires r < |st1| && AgreeOutside(st1, lz1, st2, lz2, 2 * r + 2) && b < e && lz2[r].None?
    requires Sound(st1, lz1, 2 * r + 1, b, (b + e) / 2) && left == Total(st1, lz1, 2 * r + 1, b, (b + e) / 2)
    requires Sound(st2, lz2, 2 * r + 2, (b + e) / 2 + 1, e) && right == Total(st2, lz2, 2 * r + 2, (b + e) / 2 + 1, e)
    ensures Sound(st2[r := left + right], lz2, r, b, e)
  {
    var mid := (b + e) / 2;
    var st3 := st2[r := left + right];
    ChildConfined(st1, lz1, st2, lz2, r, 2 * r + 2);
    OwnSlotOnly(st2, lz2, r, left + right);
    ChildSubtreeInside(r, r, 2 * r + 1);
    assert AgreeInside(st1, lz1, st3, lz2, 2 * r + 1);
    TotalFrame(st1, lz1, st3, lz2, 2 * r + 1, b, mid);
    SoundFrame(st1, lz1, st3, lz2, 2 * r + 1, b, mid);
    TotalFrame(st2, lz2, st3, lz2, 2 * r + 2, mid + 1, e);
    SoundFrame(st2, lz2, st3, lz2, 2 * r + 2, mid + 1, e);
    JoinSound(st3, lz2, r, b, e);
  }

  /**
   * An assignment at node c carried over to states that agree with both
   * ends on c's subtree.
   */
  lemma AssignedMoved(st0: seq<int>, lz0: seq<Tag>, st0': seq<int>, lz0': seq<Tag>,
                      st1: seq<int>, lz1: seq<Tag>, st1': seq<int>, lz1': seq<Tag>,
                      c: nat, b: nat, e: nat, qb: int, qe: int, v: int)
    requires AgreeInside(st0, lz0, st0', lz0', c) && AgreeInside(st1, lz1, st1', lz1', c)
    requires Denote(st1, lz1, c, b, e) == Overwrite(Denote(st0, lz0, c, b, e), qb - b, qe - b, v)
    ensures Denote(st1', lz1', c, b, e) == Overwrite(Denote(st0', lz0', c, b, e), qb - b, qe - b, v)
  {
    DenoteFrame(st0, lz0, st0', lz0', c, b, e);
    DenoteFrame(st1, lz1, st1', lz1', c, b, e);
  }

  /**
   * Partial-overlap assignment, meaning: after the left child and then the
   * right child were assigned, r stands for the assignment applied to what
   * it stood for, whatever is written at r itself.
   */
  lemma AssignJoinDenote(st0: seq<int>, lz0: seq<Tag>, st1: seq<int>, lz1: seq<Tag>, st2: seq<int>, lz2: seq<Tag>,
                         r: nat, b: nat, e: nat, qb: int, qe: int, v: int, x: int)
    requires r < |st0| && AgreeOutside(st0, lz0, st1, lz1, 2 * r + 1) && AgreeOutside(st1, lz1, st2, lz2, 2 * r + 2)
    requires b < e && lz0[r].None?
    requires Denote(st1, lz1, 2 * r + 1, b, (b + e) / 2)
          == Overwrite(Denote(st0, lz0, 2 * r + 1, b, (b + e) / 2), qb - b, qe - b, v)
    requires Denote(st2, lz2, 2 * r + 2, (b + e) / 2 + 1, e)
          == Overwrite(Denote(st1, lz1, 2 * r + 2, (b + e) / 2 + 1, e), qb - ((b + e) / 2 + 1), qe - ((b + e) / 2 + 1), v)
    ensures Denote(st2[r := x], lz2, r, b, e) == Overwrite(Denote(st0, lz0, r, b, e), qb - b, qe - b, v)
  {
    var mid := (b + e) / 2;
    var st3 := st2[r := x];
    JoinFrames(st0, lz0, st1, lz1, st2, lz2, r, x);
    AssignedMoved(st0, lz0, st0, lz0, st1, lz1, st3, lz2, 2 * r + 1, b, mid, qb, qe, v);
    AssignedMoved(st1, lz1, st0, lz0, st2, lz2, st3, lz2, 2 * r + 2, mid + 1, e, qb, qe, v);
    JoinAssigned(st0, lz0, st3, lz2, r, b, e, qb, qe, v);
  }

  /**
   * Partial-overlap query: after both children were queried in turn, each
   * standing for what it stood for, r is sound and stands for what it stood
   * for.
   */
  lemma QueryJoinKept(st0: seq<int>, lz0: seq<Tag>, st1: seq<int>, lz1: seq<Tag>, st2: seq<int>, lz2: seq<Tag>,
                      r: nat, b: nat, e: nat)
    requires r < |st0| && AgreeOutside(st0, lz0, st1, lz1, 2 * r + 1) && AgreeOutside(st1, lz1, st2, lz2, 2 * r + 2)
    requires b < e && lz0[r].None? && Sound(st0, lz0, r, b, e)
    requires Sound(st1, lz1, 2 * r + 1, b, (b + e) / 2)
    requires Denote(st1, lz1, 2 * r + 1, b, (b + e) / 2) == Denote(st0, lz0, 2 * r + 1, b, (b + e) / 2)
    requires Sound(st2, lz2, 2 * r + 2, (b + e) / 2 + 1, e)
    requires Denote(st2, lz2, 2 * r + 2, (b + e) / 2 + 1, e) == Denote(st1, lz1, 2 * r + 2, (b + e) / 2 + 1, e)
    ensures Sound(st2, lz2, r, b, e)
    ensures Denote(st2, lz2, r, b, e) == Denote(st0, lz0, r, b, e)
  {
    var mid := (b + e) / 2;
    JoinFrames(st0, lz0, st1, lz1, st2, lz2, r, st2[r]);
    assert st2[r := st2[r]] == st2;
    SoundFrame(st1, lz1, st2, lz2, 2 * r + 1, b, mid);
    DenoteFrame(st1, lz1, st2, lz2, 2 * r + 1, b, mid);
    DenoteFrame(st0, lz0, st1, lz1, 2 * r + 2, mid + 1, e);
    SameTotal(st0, lz0, st2, lz2, 2 * r + 1, b, mid);
    SameTotal(st0, lz0, st2, lz2, 2 * r + 2, mid + 1, e);
    JoinSound(st2, lz2, r, b, e);
    JoinKept(st0, lz0, st2, lz2, r, b, e);
  }

  /**
   * Node r and every node below it on the descent over [b, e] hold the sum
   * of nums over their ranges, the slot invariant that `create` establishes.
   */
  ghost predicate Filled(st: seq<int>, nums: seq<int>, r: nat, b: nat, e: nat)
    decreases e - b
  {
    r < |st| && b <= e < |nums| && st[r] == SeqSum(nums[b..e + 1])
    && (b < e ==> Filled(st, nums, 2 * r + 1, b, (b + e) / 2) && Filled(st, nums, 2 * r + 2, (b + e) / 2 + 1, e))
  }

  /** In a filled subtree every inner node holds the sum of its two children. */
  lemma FilledSplits(st: seq<int>, nums: seq<int>, r: nat, b: nat, e: nat)
    requires Filled(st, nums, r, b, e) && b < e
    ensures 2 * r + 2 < |st| && st[r] == st[2 * r + 1] + st[2 * r + 2]
  {
    assert Filled(st, nums, 2 * r + 2, (b + e) / 2 + 1, e);
    SumHalves(nums, b, e);
  }

  /** With no tags anywhere, a filled subtree shows nums[j] at every position j of its range. */
  lemma {:induction false} FilledElem(st: seq<int>, lz: seq<Tag>, nums: seq<int>, r: nat, b: nat, e: nat, j: int)
    requires |lz| == |st| && Filled(st, nums, r, b, e) && b <= j <= e
    requires forall i :: 0 <= i < |lz| ==> lz[i].None?
    ensures Elem(st, lz, r, b, e, j) == nums[j]
    decreases e - b
  {
    if b == e {
      SeqSumSingle(nums, b);
    } else if j <= (b + e) / 2 {
      FilledElem(st, lz, nums, 2 * r + 1, b, (b + e) / 2, j);
    } else {
      FilledElem(st, lz, nums, 2 * r + 2, (b + e) / 2 + 1, e, j);
    }
  }

  /** With no tags anywhere, a filled subtree is sound. */
  lemma {:induction false} FilledSound(st: seq<int>, lz: seq<Tag>, nums: seq<int>, r: nat, b: nat, e: nat)
    requires |lz| == |st| && Filled(st, nums, r, b, e)
    requires forall i :: 0 <= i < |lz| ==> lz[i].None?
    ensures Total(st, lz, r, b, e) == st[r]
    ensures Sound(st, lz, r, b, e)
    decreases e - b
  {
    if b < e {
      var mid := (b + e) / 2;
      FilledSound(st, lz, nums, 2 * r + 1, b, mid);
      FilledSound(st, lz, nums, 2 * r + 2, mid + 1, e);
      FilledSplits(st, nums, r, b, e);
    }
  }

  /** With no tags anywhere, a filled subtree is sound and stands for nums over its range. */
  lemma FilledDenotes(st: seq<int>, lz: seq<Tag>, nums: seq<int>, r: nat, b: nat, e: nat)
    requires |lz| == |st| && Filled(st, nums, r, b, e)
    requires forall i :: 0 <= i < |lz| ==> lz[i].None?
    ensures Denote(st, lz, r, b, e) == nums[b..e + 1]
    ensures Sound(st, lz, r, b, e)
  {
    forall i | 0 <= i < e - b + 1
      ensures Denote(st, lz, r, b, e)[i] == nums[b..e + 1][i]
    {
      FilledElem(st, lz, nums, r, b, e, b + i);
    }
    FilledSound(st, lz, nums, r, b, e);
  }

  /** st' keeps st at every slot of the descent over [b, e] from r. */
  ghost predicate KeptOnDescent(st: seq<int>, st': seq<int>, r: nat, b: nat, e: nat) {
    |st'| == |st| && forall i {:trigger OnDescent(i, r, b, e)} :: 0 <= i < |st| && OnDescent(i, r, b, e) ==> st'[i] == st[i]
  }

  /** st' keeps st at every slot off the descent over [b, e] from r. */
  ghost predicate KeptOffDescent(st: seq<int>, st': seq<int>, r: nat, b: nat, e: nat) {
    |st'| == |st| && forall i {:trigger OnDescent(i, r, b, e)} :: 0 <= i < |st| && !OnDescent(i, r, b, e) ==> st'[i] == st[i]
  }

  /** A filled descent stays filled when only slots off it change. */
  lemma {:induction false} FilledFrame(st: seq<int>, st': seq<int>, nums: seq<int>, r: nat, b: nat, e: nat)
    requires Filled(st, nums, r, b, e) && KeptOnDescent(st, st', r, b, e)
    ensures Filled(st', nums, r, b, e)
    decreases e - b
  {
    assert OnDescent(r, r, b, e);
    if b < e {
      var mid := (b + e) / 2;
      var left, right, b' := 2 * r + 1, 2 * r + 2, mid + 1;
      forall i | 0 <= i < |st| && (OnDescent(i, left, b, mid) || OnDescent(i, right, b', e))
        ensures OnDescent(i, r, b, e)
      {
      }
      FilledFrame(st, st', nums, 2 * r + 1, b, mid);
      FilledFrame(st, st', nums, 2 * r + 2, mid + 1, e);
    }
  }

  /** Filling the right child leaves the filled left child as it was. */
  lemma FilledKeptBySibling(st1: seq<int>, st2: seq<int>, nums: seq<int>, r: nat, b: nat, e: nat)
    requires b < e
    requires KeptOffDescent(st1, st2, 2 * r + 2, (b + e) / 2 + 1, e) && Filled(st1, nums, 2 * r + 1, b, (b + e) / 2)
    ensures Filled(st2, nums, 2 * r + 1, b, (b + e) / 2)
  {
    var mid := (b + e) / 2;
    var left, right, b' := 2 * r + 1, 2 * r + 2, mid + 1;
    forall i | 0 <= i < |st1| && OnDescent(i, left, b, mid)
      ensures !OnDescent(i, right, b', e)
    {
      DescentsDisjoint(i, r, b, e);
    }
    FilledFrame(st1, st2, nums, 2 * r + 1, b, mid);
  }

  /** Writing the sum of nums over [b, e] at r, above two filled children, fills r. */
  lemma FilledKeptByOwnSlot(st: seq<int>, nums: seq<int>, r: nat, b: nat, e: nat, x: int)
    requires b < e && r < |st|
    requires Filled(st, nums, 2 * r + 1, b, (b + e) / 2) && Filled(st, nums, 2 * r + 2, (b + e) / 2 + 1, e)
    requires x == SeqSum(nums[b..e + 1])
    ensures Filled(st[r := x], nums, r, b, e)
  {
    var mid := (b + e) / 2;
    DescentsDisjoint(r, r, b, e);
    FilledFrame(st, st[r := x], nums, 2 * r + 1, b, mid);
    FilledFrame(st, st[r := x], nums, 2 * r + 2, mid + 1, e);
  }

  /** Two fills confined to the children's descents and a write at r stay within r's descent. */
  lemma DescentKept(st0: seq<int>, st1: seq<int>, st2: seq<int>, r: nat, b: nat, e: nat, x: int)
    requires b < e && r < |st0|
    requires KeptOffDescent(st0, st1, 2 * r + 1, b, (b + e) / 2)
    requires KeptOffDescent(st1, st2, 2 * r + 2, (b + e) / 2 + 1, e)
    ensures KeptOffDescent(st0, st2[r := x], r, b, e)
  {
    assert OnDescent(r, r, b, e);
  }

  /**
   * The inner step of `create`: after filling the left child (st0 to st1) and
   * then the right child (st1 to st2), writing the two results' sum at r
   * fills node r, and only slots of the descent have changed.
   */
  lemma BuildChildren(st0: seq<int>, st1: seq<int>, st2: seq<int>, nums: seq<int>,
                      r: nat, b: nat, e: nat, left: int, right: int)
    requires b < e && r < |st0|
    requires KeptOffDescent(st0, st1, 2 * r + 1, b, (b + e) / 2) && Filled(st1, nums, 2 * r + 1, b, (b + e) / 2)
    requires KeptOffDescent(st1, st2, 2 * r + 2, (b + e) / 2 + 1, e) && Filled(st2, nums, 2 * r + 2, (b + e) / 2 + 1, e)
    requires left == st1[2 * r + 1] && right == st2[2 * r + 2]
    ensures left + right == SeqSum(nums[b..e + 1])
    ensures Filled(st2[r := left + right], nums, r, b, e)
    ensures KeptOffDescent(st0, st2[r := left + right], r, b, e)
  {
    SumHalves(nums, b, e);
    FilledKeptBySibling(st1, st2, nums, r, b, e);
    FilledKeptByOwnSlot(st2, nums, r, b, e, left + right);
    DescentKept(st0, st1, st2, r, b, e, left + right);
  }
}
