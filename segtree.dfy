/**
 * The lazily propagated sum segment tree over a fixed array nums. It owns two
 * flat vectors of the same length, st (node sums) and lazy (pending
 * assignment tags), laid out as an implicit complete binary tree; `create`
 * fills st bottom-up from nums, `modify` assigns one value to a range of
 * positions and `sum` returns the sum of a range, both walking top-down and
 * flushing pending tags on the way.
 *
 * The query bounds and the assigned value, which the source keeps in fields
 * of the tree during a call, are parameters of the recursive runners here.
 * A tag is an Option, so that assigning 0 is a real pending assignment.
 */
module SegmentTree {
  import opened TreeLayout
  import opened RangeSpec
  import opened Representation
  import opened RunnerSteps

  class Segtree {
    /** The backing array; the tree never changes it. */
    const nums: seq<int>
    const st: array<int>
    const lazy: array<Tag>
    /** Height of the root: ceil(log2 |nums|). */
    ghost const height: nat

    /** Shape: both vectors have 2 * 2^height - 1 slots and the root covers [0, |nums| - 1]. */
    ghost predicate Valid()
      reads this
    {
      |nums| >= 1 && height == CeilLog2(|nums|) &&
      st.Length == TreeSize(|nums|) && lazy.Length == st.Length &&
      Slot(st.Length, 0, 0, |nums| - 1, height)
    }

    /** Shape plus the representation invariant at the root: the state after `create`. */
    ghost predicate Built()
      reads this, st, lazy
    {
      Valid() && Sound(st[..], lazy[..], 0, 0, |nums| - 1)
    }

    /** The current elements the tree stands for. */
    ghost function Elements(): (s: seq<int>)
      reads this, st, lazy
      requires Valid()
      ensures |s| == |nums|
    {
      Denote(st[..], lazy[..], 0, 0, |nums| - 1)
    }

    /** `new`: both vectors get 2 * 2^ceil(log2 n) - 1 slots, st all I32Max, lazy all untagged. */
    constructor (nums: seq<int>)
      requires |nums| >= 1
      ensures Valid() && this.nums == nums
      ensures fresh(st) && fresh(lazy)
      ensures st.Length == lazy.Length == TreeSize(|nums|)
      ensures forall i :: 0 <= i < st.Length ==> st[i] == I32Max
      ensures forall i :: 0 <= i < lazy.Length ==> lazy[i] == None
    {
      var size := TreeSize(|nums|);
      this.nums := nums;
      st := new int[size](_ => I32Max);
      lazy := new Tag[size](_ => None);
      height := CeilLog2(|nums|);
      RootSlot(|nums|);
    }

    /**
     * Applies the pending tag of node r, if any: st[r] becomes tag * width,
     * the tag is copied to both children when they are in bounds, and the
     * node is untagged. What the node stands for does not change.
     */
    method Flush(r: nat, b: nat, e: nat, ghost k: nat)
      requires Slot(st.Length, r, b, e, k) && Ready(st[..], lazy[..], r, b, e)
      modifies st, lazy
      ensures old(lazy[r]).None? ==> st[..] == old(st[..]) && lazy[..] == old(lazy[..])
      ensures old(lazy[r]).Some? ==>
        var t := old(lazy[r]).value;
        st[..] == old(st[..])[r := t * (e - b + 1)] && lazy[..] == PushTag(old(lazy[..]), r, t)[r := None]
      ensures Settled(old(st[..]), old(lazy[..]), st[..], lazy[..], r, b, e)
    {
      FlushSettles(st[..], lazy[..], r, b, e, k);
      if lazy[r].Some? {
        ghost var lz0 := lazy[..];
        var t := lazy[r].value;
        st[r] := t * (e - b + 1);
        if 2 * r + 2 < st.Length {
          lazy[2 * r + 1] := Some(t);
          lazy[2 * r + 2] := Some(t);
        }
        lazy[r] := None;
        assert lazy[..] == PushTag(lz0, r, t)[r := None];
      }
    }

    /**
     * `create_runner`: fills the node for [b, e] and everything below it from
     * nums and returns the node's sum. Only the slots of the descent change.
     */
    method CreateRunner(r: nat, b: nat, e: nat, ghost k: nat) returns (total: int)
      requires Slot(st.Length, r, b, e, k) && e < |nums|
      modifies st
      ensures Grown(old(st[..]), st[..], nums, r, b, e) && total == st[r]
      decreases e - b
    {
      if b == e {
        LeafGrown(st[..], nums, r, b);
        st[r] := nums[b];
        return st[r];
      }
      ChildSlots(st.Length, r, b, e, k);
      var mid := (b + e) / 2;
      ghost var s0 := st[..];
      var left := CreateRunner(2 * r + 1, b, mid, k - 1);
      ghost var s1 := st[..];
      var right := CreateRunner(2 * r + 2, mid + 1, e, k - 1);
      ghost var s2 := st[..];
      BuildJoin(s0, s1, s2, nums, r, b, e, left, right);
      st[r] := left + right;
      assert st[..] == s2[r := left + right];
      total := st[r];
    }

    /**
     * `create`: builds the tree from nums. Afterwards every leaf of the
     * descent holds its element, every inner node the sum of its children,
     * the root the sum of nums, and slots off the descent are untouched.
     */
    method Create()
      requires Valid()
      requires forall i :: 0 <= i < lazy.Length ==> lazy[i].None?
      modifies st
      ensures Built() && Elements() == nums
      ensures Filled(st[..], nums, 0, 0, |nums| - 1)
      ensures st[0] == SeqSum(nums)
      ensures KeptOffDescent(old(st[..]), st[..], 0, 0, |nums| - 1)
    {
      var _ := CreateRunner(0, 0, |nums| - 1, height);
      FilledDenotes(st[..], lazy[..], nums, 0, 0, |nums| - 1);
      assert nums[0..|nums|] == nums;
    }

    /**
     * `modify_runner`: assigns v to the positions of [qb, qe] that lie in
     * node r's range [b, e], keeps the subtree sound, leaves the node
     * untagged and returns its new sum, changing no slot outside the subtree.
     */
    method ModifyRunner(r: nat, b: nat, e: nat, ghost k: nat, qb: nat, qe: nat, v: int) returns (total: int)
      requires Slot(st.Length, r, b, e, k) && Ready(st[..], lazy[..], r, b, e)
      modifies st, lazy
      ensures Assigned(old(st[..]), old(lazy[..]), st[..], lazy[..], r, b, e, qb, qe, v)
      ensures total == st[r]
      decreases e - b
    {
      ghost var pre, lpre := st[..], lazy[..];
      Flush(r, b, e, k);
      ghost var s0, l0 := st[..], lazy[..];
      if qb <= b && qe >= e {
        CoverAssigns(pre, lpre, s0, l0, r, b, e, k, qb, qe, v);
        st[r] := v * (e - b + 1);
        if 2 * r + 2 < st.Length {
          lazy[2 * r + 1] := Some(v);
          lazy[2 * r + 2] := Some(v);
        }
        assert st[..] == s0[r := v * (e - b + 1)];
        assert lazy[..] == PushTag(l0, r, v);
        total := st[r];
      } else if qe < b || qb > e {
        MissAssigns(pre, lpre, s0, l0, r, b, e, qb, qe, v);
        total := st[r];
      } else {
        ChildSlots(st.Length, r, b, e, k);
        var mid := (b + e) / 2;
        LeftChildReady(pre, lpre, s0, l0, r, b, e);
        var left := ModifyRunner(2 * r + 1, b, mid, k - 1, qb, qe, v);
        ghost var s1, l1 := st[..], lazy[..];
        RightChildReady(pre, lpre, s0, l0, s1, l1, r, b, e);
        var right := ModifyRunner(2 * r + 2, mid + 1, e, k - 1, qb, qe, v);
        ghost var s2, l2 := st[..], lazy[..];
        AssignJoin(pre, lpre, s0, l0, s1, l1, s2, l2, r, b, e, qb, qe, v, left, right);
        st[r] := left + right;
        assert st[..] == s2[r := left + right];
        total := st[r];
      }
    }

    /** `modify`: assigns v to every position in [qb, qe]; an end past the array changes nothing. */
    method Modify(qb: nat, qe: nat, v: int)
      requires Built()
      modifies st, lazy
      ensures Built()
      ensures qe >= |nums| ==> unchanged(st) && unchanged(lazy)
      ensures Elements() == if qe < |nums| then Overwrite(old(Elements()), qb, qe, v) else old(Elements())
    {
      if qe >= |nums| {
        return;
      }
      var _ := ModifyRunner(0, 0, |nums| - 1, height, qb, qe, v);
    }

    /**
     * `sum_runner`: returns the sum of the positions of [qb, qe] that lie in
     * node r's range [b, e]. Only flushes change the vectors: what the
     * subtree stands for is unchanged and it stays sound.
     */
    method SumRunner(r: nat, b: nat, e: nat, ghost k: nat, qb: nat, qe: nat) returns (total: int)
      requires Slot(st.Length, r, b, e, k) && Ready(st[..], lazy[..], r, b, e)
      modifies st, lazy
      ensures Queried(old(st[..]), old(lazy[..]), st[..], lazy[..], r, b, e, qb, qe, total)
      decreases e - b
    {
      ghost var pre, lpre := st[..], lazy[..];
      Flush(r, b, e, k);
      ghost var s0, l0 := st[..], lazy[..];
      if qb <= b && qe >= e {
        QueryCover(pre, lpre, s0, l0, r, b, e, qb, qe);
        total := st[r];
      } else if qb > e || qe < b {
        QueryMiss(pre, lpre, s0, l0, r, b, e, qb, qe);
        total := 0;
      } else {
        ChildSlots(st.Length, r, b, e, k);
        var mid := (b + e) / 2;
        LeftChildReady(pre, lpre, s0, l0, r, b, e);
        var left := SumRunner(2 * r + 1, b, mid, k - 1, qb, qe);
        ghost var s1, l1 := st[..], lazy[..];
        RightChildReady(pre, lpre, s0, l0, s1, l1, r, b, e);
        var right := SumRunner(2 * r + 2, mid + 1, e, k - 1, qb, qe);
        ghost var s2, l2 := st[..], lazy[..];
        QueryJoin(pre, lpre, s0, l0, s1, l1, s2, l2, r, b, e, qb, qe, left, right);
        total := right + left;
      }
    }

    /**
     * `sum`: returns the sum of the current elements at positions [qb, qe];
     * an end past the array returns -1 and changes nothing.
     */
    method Sum(qb: nat, qe: nat) returns (total: int)
      requires Built()
      modifies st, lazy
      ensures Built() && Elements() == old(Elements())
      ensures qe >= |nums| ==> total == -1 && unchanged(st) && unchanged(lazy)
      ensures qe < |nums| ==> total == RangeSum(Elements(), qb, qe)
    {
      if qe >= |nums| {
        return -1;
      }
      total := SumRunner(0, 0, |nums| - 1, height, qb, qe);
    }
  }
}
