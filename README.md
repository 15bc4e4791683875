# Lazy segment tree for range assignment and range sum

This project models `Segtree`, a segment tree over a fixed array of
integers `nums`. It answers two kinds of request:

- `modify(qbegin, qend, new_val)` sets every position in `[qbegin, qend]` to `new_val`;
- `sum(qbegin, qend)` returns the sum of the current values in `[qbegin, qend]`.

The tree keeps two flat vectors of the same length, `st` and `lazy`. They
are laid out as an implicit complete binary tree: the root is slot 0, and
the children of slot `r` are `2r+1` and `2r+2`. The node for `[b, e]` hands
`[b, mid]` to its left child and `[mid+1, e]` to its right child, where
`mid = (b + e) / 2`.

- `st[r]` holds the sum of the node's range when neither `r` nor any of its
  ancestors has a pending tag. A tagged node's slot, and every slot below it,
  is stale until the tag is flushed.
- `lazy[r]` holds an assignment that has not yet reached the node's children.

`new` allocates `2 * 2^ceil(log2 n) - 1` slots. `create` fills `st`
bottom-up from `nums`. `modify_runner` and `sum_runner` walk top-down. On the
way down they flush each pending tag: the node's slot is set to the tag times
a width, the tag is copied to its children, and the node's tag is cleared.
`modify_runner` uses the width `end - begin + 1`. `sum_runner` as written uses
`begin - end + 1` (see Findings). The corrected tree uses `end - begin + 1` in
both.

The modules follow the structure of the program:

- `TreeLayout`: the slot arithmetic of the implicit tree. This covers
  `ceil(log2 n)`, the vector size, the fact that children stay in bounds,
  and which slots lie under which.
- `RangeSpec`: the abstract array. `RangeSum` is what a query must answer.
  `Overwrite` is what an assignment must do. The laws of the two: sums of
  concatenations, idempotence, overlap, isolation.
- `Representation`: what a pair of vectors stands for.
  - `Denote` gives the elements that node `r` over `[b, e]` currently
    represents. A tag stands for its value repeated; an untagged leaf stands
    for its `st` slot; an untagged inner node stands for its two children
    concatenated.
  - `Sound` is the representation invariant: every untagged inner node with
    no tagged ancestor holds the sum of what its children stand for. Below
    a tag nothing is required.
  - Frame lemmas cover changes confined to one subtree.
  - `Filled` describes what `create` establishes.
- `RunnerSteps`: the per-node outcome of each walk, and one lemma per branch
  of each walk.
  - `Settled` is the outcome of a flush, `Assigned` of `modify_runner`,
    `Queried` of `sum_runner` and `Grown` of `create_runner`.
- `SegmentTree`: the class `Segtree` with the arrays `st` and `lazy`. It has
  the corrected tree's methods `Flush`, `CreateRunner`, `Create`,
  `ModifyRunner`, `Modify`, `SumRunner` and `Sum`.
  - Each runner is proved against the abstract array: `Modify` leaves
    `Elements()` equal to `Overwrite(old(Elements()), qb, qe, v)`, and `Sum`
    returns `RangeSum(Elements(), qb, qe)`. Both keep `Sound`.
  - Pending tags are `Option`s, and both flushes use the width `e - b + 1`.
- `AsWritten`: the tree exactly as the source computes it, on values. Tags
  use `0` as the "no tag", and the flush in `sum_runner` uses
  `begin - end + 1`. The two defects listed under Findings are exhibited on
  concrete trees here.
- `Scenarios`: concrete runs of the corrected tree. They include the
  source's four `create` tests, an assign-and-query sequence on
  `[-1, 7, 1, 3]`, and the two defect inputs answered correctly. There are
  also tree-level forms of idempotence, isolation, overlap and out-of-range
  rejection.

The query bounds and the assigned value are fields of the tree in the source
(`qbegin`, `qend`, `new_val`, written by `modify` and `sum` before the walk).
Here they are parameters of the runners. A request whose end is past the
array is rejected, as in the source: `modify` changes nothing and `sum`
returns `-1`. A request with `qbegin > qend` is not checked by the source; it
reaches the runners and behaves as an empty range. The model gives it the
same meaning: an assignment that changes nothing and a sum of 0.

## Model

| member | source | states |
|---|---|---|
| TreeLayout.CeilLog2 | src/lib.rs:43 | the exponent `k` of `new` is the least `k` with `n <= 2^k` |
| TreeLayout.TreeSize | src/lib.rs:44 | the number of slots `new` allocates, `2 * 2^ceil(log2 n) - 1`, lies between `2n - 1` and `4n - 3` |
| TreeLayout.RootSlot | src/lib.rs:72 | the root walk over `[0, n - 1]` starts in a slot whose whole subtree fits the allocated vectors |
| TreeLayout.ChildSlots | src/lib.rs:95-97 | splitting `[b, e]` at `mid`: both child slots are in bounds, the two halves partition the range, each is smaller, and each again fits its subtree |
| TreeLayout.ChildSubtreeInside | src/lib.rs:96-97 | a child's subtree lies inside its parent's and does not contain the parent |
| TreeLayout.SiblingSubtreesDisjoint | src/lib.rs:96-97 | the left and the right child's subtrees share no slot, so the second recursive call cannot undo the first |
| TreeLayout.DescentInSubtree | src/lib.rs:114-117 | every slot the descent of `create_runner` visits is inside the subtree of its start |
| TreeLayout.DescentsDisjoint | src/lib.rs:114-117 | the two recursive descents of `create_runner` visit disjoint slots, neither visits the parent, and both lie on the parent's descent |
| RangeSpec.SeqSumConcat | src/lib.rs:116-117 | the sum of a concatenation is the sum of the parts |
| RangeSpec.SeqSumFill | src/lib.rs:86 | `n` copies of `v` sum to `v * n`, the value a covered node gets |
| RangeSpec.RangeSumConcat | src/lib.rs:150-152 | a range sum over two concatenated parts is the left part's answer plus the right part's, with the range shifted |
| RangeSpec.RangeSumCovered | src/lib.rs:144-145 | a range that covers the whole sequence sums to the sum of the sequence |
| RangeSpec.RangeSumMissed | src/lib.rs:146-147 | a range that misses the sequence, or is reversed, sums to 0 |
| RangeSpec.RangeSumSlice | src/lib.rs:134-154 | the range sum over `[lo, hi]` is the sum of the slice `s[lo..hi+1]` |
| RangeSpec.OverwriteConcat | src/lib.rs:94-100 | assigning over two concatenated parts is assigning over each, with the range shifted |
| RangeSpec.OverwriteCovered | src/lib.rs:85-91 | assigning over a range that covers the sequence yields `v` repeated |
| RangeSpec.OverwriteMissed | src/lib.rs:92-93 | assigning over a range that misses the sequence, or is reversed, changes nothing |
| RangeSpec.OverwriteIdempotent | src/lib.rs:62-73 | assigning the same value over the same range twice equals assigning it once |
| RangeSpec.OverwriteLaterWins | src/lib.rs:62-73 | of two assignments, the later one wins where the ranges overlap, each holds where only it applies, and other positions keep their value |
| RangeSpec.RangeSumIsolated | src/lib.rs:62-73 | an assignment does not change the sum of a range disjoint from it |
| RangeSpec.RangeSumAssigned | src/lib.rs:85-91 | after an assignment of `v`, a range inside the assigned one sums to `v` times its length |
| RangeSpec.SeqSumSingle | src/lib.rs:109-111 | a leaf's range sums to its one element |
| RangeSpec.SumHalves | src/lib.rs:114-117 | the sum over `[b, e]` is the sum over `[b, mid]` plus the sum over `[mid+1, e]` |
| Representation.DenoteSplit | src/lib.rs:95-97 | an untagged inner node stands for its left child's elements followed by its right child's |
| Representation.DenoteFlat | src/lib.rs:76-83 | a tagged node stands for its tag repeated over its width, whatever lies below it |
| Representation.DenoteLeaf | src/lib.rs:109-111 | an untagged leaf stands for its `st` slot |
| Representation.TotalIsSum | src/lib.rs:99 | the sum a node must hold, computed from its children's totals, is the sum of the elements it stands for |
| Representation.NodeHoldsSum | src/lib.rs:144-145 | in a sound tree an untagged node's `st` slot is the sum of the elements it stands for, so returning it answers a covered query |
| Representation.SettledNode | src/lib.rs:76-83 | setting a node to `t * width` and tagging its children with `t` makes it stand for `t` repeated, and keeps it sound |
| Representation.AgreeInsideChild | src/lib.rs:96-97 | vectors that agree on a parent's subtree agree on each child's subtree |
| Representation.ElemFrame | src/lib.rs:96-97 | each element a node stands for depends only on the slots in its subtree |
| Representation.DenoteFrame | src/lib.rs:96-97 | what a node stands for depends only on the slots in its subtree |
| Representation.TotalFrame | src/lib.rs:96-97 | a node's required sum depends only on the slots in its subtree |
| Representation.SoundFrame | src/lib.rs:96-97 | soundness of a subtree depends only on the slots in it |
| Representation.ChildConfined | src/lib.rs:96-97 | a change confined to one child's subtree leaves the parent's slots and the sibling's subtree as they were |
| Representation.JoinFrames | src/lib.rs:95-100 | after the two recursive calls and the write of `st[root]`, each child's subtree is as its own call left it, and nothing outside the parent's subtree changed |
| Representation.SameTotal | src/lib.rs:99 | two subtrees that stand for the same elements require the same sum |
| Representation.JoinSound | src/lib.rs:99 | an untagged node holding the sum of two sound children's totals is sound |
| Representation.JoinAssigned | src/lib.rs:94-100 | if each child stands for its old elements overwritten, the parent stands for its old elements overwritten |
| Representation.JoinKept | src/lib.rs:148-153 | if each child stands for its old elements, so does the parent |
| Representation.SumSplits | src/lib.rs:149-152 | the range sum over a node's elements is its left child's answer plus its right child's |
| Representation.AssignJoinSound | src/lib.rs:96-99 | writing `left + right` into the parent after both calls leaves the parent sound |
| Representation.AssignedMoved | src/lib.rs:96-97 | an assignment result of a child survives changes outside the child's subtree |
| Representation.AssignJoinDenote | src/lib.rs:94-100 | after both calls and the write of `st[root]`, the parent stands for its old elements overwritten over `[qb, qe]` |
| Representation.QueryJoinKept | src/lib.rs:148-153 | after both query calls the parent is still sound and stands for the same elements |
| Representation.FilledSplits | src/lib.rs:116-117 | in a filled subtree an inner node holds the sum of its two children |
| Representation.FilledElem | src/lib.rs:108-120 | with no tags, a filled subtree stands for `nums[j]` at each position `j` of its range |
| Representation.FilledSound | src/lib.rs:108-120 | with no tags, a filled subtree is sound and its required sum is its `st` slot |
| Representation.FilledDenotes | src/lib.rs:104-120 | with no tags, a filled subtree over `[b, e]` stands for `nums[b..e+1]` and is sound |
| Representation.FilledFrame | src/lib.rs:114-117 | a filled subtree stays filled under changes that keep the slots of its descent |
| Representation.FilledKeptBySibling | src/lib.rs:116-117 | building the right child does not unfill the left child |
| Representation.FilledKeptByOwnSlot | src/lib.rs:116-117 | writing the children's sum into the parent leaves the children filled and fills the parent |
| Representation.DescentKept | src/lib.rs:114-119 | building a node changes no slot off its descent |
| Representation.BuildChildren | src/lib.rs:114-119 | the two children's results add up to the sum of `nums` over the parent's range, and storing it fills the parent and changes nothing off its descent |
| RunnerSteps.FlushSettles | src/lib.rs:76-83 | the flush leaves the node untagged and sound, standing for the same elements, and changes nothing outside its subtree |
| RunnerSteps.FlushTagged | src/lib.rs:76-83 | a tagged node set to `tag * width`, its tag copied down and cleared, is settled |
| RunnerSteps.CoverAssigns | src/lib.rs:85-91 | a covered node set to `new_val * width` with its children tagged stands for its old elements overwritten, and is sound |
| RunnerSteps.MissAssigns | src/lib.rs:92-93 | a node whose range misses the query already stands for its old elements overwritten |
| RunnerSteps.LeftChildReady | src/lib.rs:96 | after the flush, the left child is sound and may be entered |
| RunnerSteps.RightChildReady | src/lib.rs:96-97 | after the left call, the right child is still sound and may be entered |
| RunnerSteps.AssignJoin | src/lib.rs:94-101 | the partial-overlap branch of `modify_runner` completes the assignment at the node |
| RunnerSteps.QueryCover | src/lib.rs:144-145 | a covered node answers its `st` slot, which is the query's sum over it |
| RunnerSteps.QueryMiss | src/lib.rs:146-147 | a node outside the query answers 0, which is the query's sum over it |
| RunnerSteps.QueryJoin | src/lib.rs:148-153 | the children's answers `right + left` add up to the query's sum over the node, which is left sound and unchanged in meaning |
| RunnerSteps.LeafGrown | src/lib.rs:109-111 | copying `nums[begin]` into a leaf builds it |
| RunnerSteps.BuildJoin | src/lib.rs:114-119 | storing the sum of the two built children builds the node |
| SegmentTree.Segtree.constructor | src/lib.rs:42-55 | `new` allocates `TreeSize(n)` slots in both vectors, `st` all `i32::MAX` and `lazy` all untagged |
| SegmentTree.Segtree.Flush | src/lib.rs:76-83 | the flush writes `tag * (end - begin + 1)`, copies the tag to in-bounds children, clears it, and leaves the node settled |
| SegmentTree.Segtree.CreateRunner | src/lib.rs:108-120 | `create_runner` fills every node of its descent with the sum of `nums` over its range, returns the node's value and changes no other slot |
| SegmentTree.Segtree.Create | src/lib.rs:104-106 | after `create` the tree is sound and stands for `nums`, the root holds the sum of `nums`, and slots off the descent keep their value |
| SegmentTree.Segtree.ModifyRunner | src/lib.rs:75-102 | `modify_runner` leaves the node untagged and sound, standing for its old elements with `[qb, qe]` overwritten by `new_val`; it returns the node's new sum and changes nothing outside its subtree |
| SegmentTree.Segtree.Modify | src/lib.rs:62-73 | `modify` keeps the tree sound and its elements become `Overwrite(old, qb, qe, v)`; an end past the array changes nothing |
| SegmentTree.Segtree.SumRunner | src/lib.rs:134-154 | `sum_runner` returns the sum of the node's elements inside `[qb, qe]`, and leaves the node settled with the same elements |
| SegmentTree.Segtree.Sum | src/lib.rs:122-132 | `sum` returns `RangeSum(Elements(), qb, qe)` and keeps the elements and soundness; an end past the array returns `-1` and changes nothing |
| AsWritten.UpdateWidth | src/lib.rs:77 | the width `end - begin + 1` used by the flush of `modify_runner` is positive on a non-empty range |
| AsWritten.QueryWidth | src/lib.rs:136 | the width `begin - end + 1` of the flush in `sum_runner` equals the width of line 77 exactly when `begin == end`; on every wider node it is at most 0 while the width of line 77 is positive |
| AsWritten.QueryWidthDisagrees | src/lib.rs:136 | on every node wider than one index, the value the flush in `sum_runner` writes for a non-zero tag differs from the tag times the width, the sum the tag stands for |
| AsWritten.New | src/lib.rs:42-55 | `new` gives `TreeSize(n)` slots, `st` all `i32::MAX`, `lazy` all `0` |
| AsWritten.Flush | src/lib.rs:76-83 | after the flush the node's tag is `0`, and a node whose tag already is `0` is left as it was |
| AsWritten.ModifyRunner | src/lib.rs:75-102 | `modify_runner` as written keeps both vector lengths and returns the node's new `st` slot |
| AsWritten.SumRunner | src/lib.rs:134-154 | `sum_runner` as written keeps both vector lengths and answers 0 for a node outside the query |
| AsWritten.CreateRunner | src/lib.rs:108-120 | `create_runner` as written returns, and stores at the node, the sum of `nums` over the node's range |
| AsWritten.Build | src/lib.rs:104-106 | `new` then `create` leaves the sum of `nums` at the root |
| AsWritten.Modify | src/lib.rs:62-73 | `modify` as written keeps both vector lengths and changes nothing for an end past the array |
| AsWritten.Sum | src/lib.rs:122-132 | `sum` as written answers `-1` and changes nothing for an end past the array |
| AsWritten.CreateLeaf | src/lib.rs:109-111 | building a leaf writes its element into its slot and nothing else |
| AsWritten.CreatePair | src/lib.rs:114-119 | building a node over two indices writes both leaves and then their sum into the node |
| AsWritten.BuildThree | src/lib.rs:171-179 | `create` on `[-1, 7, 1]` gives `st = [7, 6, 1, -1, 7, MAX, MAX]` and an all-zero `lazy` |
| AsWritten.BuildTwo | src/lib.rs:181-189 | `create` on `[-1, 7]` gives `st = [6, -1, 7]` and an all-zero `lazy` |
| AsWritten.AssignFiveToThree | src/lib.rs:85-91 | `modify(0, 2, 5)` on the built `[-1, 7, 1]` sets the root to 15 and tags both children with 5 |
| AsWritten.QueryFlushLosesAssignment | src/lib.rs:136 | after `modify(0, 2, 5)` on `[-1, 7, 1]`, `sum(0, 1)` as written answers 0, while the sum of the assigned elements is 10 |
| AsWritten.ZeroAssignmentLost | src/lib.rs:76 | after `modify(0, 1, 0)` on `[-1, 7]`, the children's `0` tags read as "no tag" and `sum(0, 0)` as written answers -1, while the assigned element is 0 |
| Scenarios.CreateFourItems | src/lib.rs:161-169 | `create` on `[-1, 7, 1, 3]` gives `st = [10, 6, 4, -1, 7, 1, 3]` |
| Scenarios.CreateThreeItems | src/lib.rs:171-179 | `create` on `[-1, 7, 1]` gives `st = [7, 6, 1, -1, 7, MAX, MAX]` |
| Scenarios.CreateTwoItems | src/lib.rs:181-189 | `create` on `[-1, 7]` gives `st = [6, -1, 7]` |
| Scenarios.CreateOneItem | src/lib.rs:191-199 | `create` on `[-1]` gives `st = [-1]` |
| Scenarios.FilledFour | src/lib.rs:114-119 | a node built over four indices holds their sum split over two pairs of leaves, each leaf its element |
| Scenarios.FilledPair | src/lib.rs:114-119 | a node built over two indices holds their sum, each leaf its element |
| Scenarios.AssignAndQuery | src/lib.rs:62-132 | on `[-1, 7, 1, 3]`: `sum(0, 3)` is 10; after `modify(1, 2, 5)`, `sum(0, 3)` is 12 and `sum(1, 2)` is 10; after `modify(0, 3, 0)`, `sum(0, 3)` is 0 |
| Scenarios.QueryAfterAssigningAll | src/lib.rs:134-142 | on `[-1, 7, 1]`, `modify(0, 2, 5)` then `sum(0, 1)` answers 10 |
| Scenarios.QueryAfterAssigningZero | src/lib.rs:75-83 | on `[-1, 7]`, `modify(0, 1, 0)` then `sum(0, 0)` answers 0 |
| Scenarios.EndPastArray | src/lib.rs:122-126 | on `[-1, 7, 1, 3]`, `modify(0, 4, 9)` changes nothing and `sum(2, 4)` answers -1 |
| Scenarios.AssignTwice | src/lib.rs:62-73 | `modify` with the same arguments twice leaves the same elements as once |
| Scenarios.QueryInsideAssigned | src/lib.rs:85-91 | after `modify(qb, qe, v)`, a sum inside `[qb, qe]` answers `v` times the range's length |
| Scenarios.QueryBesideAssigned | src/lib.rs:92-93 | `modify(qb, qe, v)` does not change the answer of a sum over a range disjoint from `[qb, qe]` |
| Scenarios.AssignOverlapping | src/lib.rs:62-73 | after two `modify` calls each position holds the later value where the later range covers it, the earlier value where only the earlier range does, and its old value elsewhere |

## Left out

- The input parsing macros (`src/lib.rs:1-30`) read standard input; they are not part of this model.
- `print` (`src/lib.rs:57-60`) writes the vectors to standard output and is left out. So are the error messages that `modify` and `sum` print before rejecting a request (`src/lib.rs:64`, `src/lib.rs:124`).
- `new` computes `ceil(log2 n)` in `f64`. The model uses the exact integer `CeilLog2`; floating-point rounding is not modelled.
- Arithmetic is on unbounded integers. The source uses `i32`: `new_val * width`, the node sums and the `usize as i32` casts can overflow, which the model does not capture.
- The borrow of `nums` and the `Segtree<'a>` lifetime become an immutable sequence field.
- The fields `qbegin`, `qend` and `new_val` become parameters of the runners. The model does not capture their stale values persisting between calls, which the source never reads.
- SegmentTree.Segtree.constructor: requires a non-empty array. On an empty one the source's `new` allocates one slot. `modify` and `sum` then reject every request, since every end is past the array. `create` underflows `nums.len() - 1`.
- SegmentTree.Segtree.Create: requires that no tag is pending, so it models the first `create` after `new`, as in the lifecycle `new`, then `create` once, then any number of `modify` and `sum`. A second `create` after a `modify` is not modelled; the source accepts it.
- SegmentTree.Segtree.Modify: requires `Built()`, so a `modify` before `create` is not modelled. The source accepts it and works on the `i32::MAX` values that `new` stores.
- SegmentTree.Segtree.Sum: requires `Built()`, so a `sum` before `create` is not modelled. The source accepts it and answers from the `i32::MAX` values that `new` stores.
- SegmentTree.Segtree: the corrected tree uses `Option` tags and the width `end - begin + 1` in both flushes. The source's behaviour is kept in `AsWritten`.
- AsWritten.ModifyRunner: its contract states only the vector lengths and the returned slot. The as-written walk is pinned down by the concrete runs in `AsWritten`, not by an invariant, because it has none that holds for every input.
- AsWritten.SumRunner: its contract states only the vector lengths and the answer outside the query. The same reason applies.

## Findings

| source | as written | input that shows it | evidently intended | confidence | as-written member | corrected member |
|---|---|---|---|---|---|---|
| src/lib.rs:136 | the flush in `sum_runner` sets `st[root] = lazy[root] * (begin - end + 1)`, which is 0 or negative on any node wider than one index | `[-1, 7, 1]`, `modify(0, 2, 5)`, then `sum(0, 1)` answers 0 | `lazy[root] * (end - begin + 1)`, as the flush in `modify_runner` (line 77) computes; `sum(0, 1)` is 10 | high; not executed | AsWritten.QueryFlushLosesAssignment | Scenarios.QueryAfterAssigningAll |
| src/lib.rs:76 | `lazy[root] == 0` means "no pending assignment", so `modify(.., .., 0)` tags the children with a value that reads as no tag | `[-1, 7]`, `modify(0, 1, 0)`, then `sum(0, 0)` answers -1 | a pending assignment of 0 is applied like any other; `sum(0, 0)` is 0 | high; not executed | AsWritten.ZeroAssignmentLost | Scenarios.QueryAfterAssigningZero |

In both rows the corrected behaviour holds for every input, not just the
one shown. `SegmentTree.Segtree.Sum` returns `RangeSum(Elements(), qb, qe)`,
and `SegmentTree.Segtree.Modify` overwrites `Elements()`, for all requests.
