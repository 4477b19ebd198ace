# Concurrent ordered dictionaries: a verified model

This project models, in Dafny, the parts of a collection of concurrent ordered dictionaries in which the hard
arguments sit, and proves what they are for. Concurrency is modelled as interleaving of atomic accesses to shared
memory; keys and values are integers; sequence numbers, versions and the clock are unbounded; arithmetic is exact.

- `AbTree*` - the relaxed (a,b)-tree. A successful SCX is one rewrite of a tree value. The rewrites keep the search
  order, the capacity of nodes, the balance of weights and every search; rebalancing makes progress and ends; and
  exactly which of them leave a node with one child.
- `Dcss*` - the double-compare single-swap with reusable descriptors, as a step relation over cells, descriptors
  and the processes' program counters, with arbitrary writes to the first cell; and what one target goes through, as
  a simpler relation that the protocol refines.
- `Plm*` - the exact piecewise linear fit with its two hulls and the greedy segmentation.
- `BlockBag`, `Debra*` - bags of blocks and epoch based reclamation with three bags per thread, where a thread
  announces its epoch only after rotating its bags.
- `Ist*` - the interpolation search tree: search inside a node, slices of a frozen subtree, ideal rebuilding alone and
  by any number of helpers, freezing and counting by any number of helpers, insertion and deletion, and whole runs.
- `*Progress`, `VersionedValues` - for each protocol, what makes it useful besides being safe: operations end, with the
  answer they should have.
- `Elim*` - one leaf of the tree with publishing elimination, every access a step, and the sequential history that
  explains all results.
- `Learned`, `LevelBin*`, `Aidel` - least squares with its error window, the searches that rely on it, two-level bins
  and the nest of models and bins.
- `VersionedArray` - version chains with timestamps from a shared clock.

Where the code does not do what its comments or names suggest, the model follows the code:

- `fixDegreeViolation` reads the sibling `ptrs[1]` of the first child without checking that there is one
  (AB-Tree/brown_ext_abtree_lf_impl.h:960-961); the comment at line 990 says that there is. It is not always: merging the
  only two children of a parent below the root leaves it with one, and `AbTreeNarrowRun.OneChildReached` is a run from the
  empty leaf to such a parent whose child needs fixing. `AbTreeNarrow.StepTwoIff` says exactly which steps cause it. What
  the read of an unset pointer does has no meaning in the model: a degree fix is a step where the sibling exists
  (`AbTreeNarrow.SiblingExactlyWithTwo`), and `AbTreeProgress.Progress` shows that some step then always remains.
  DEGREE is taken to be at least 4, so that 2a <= b.
- The node's dirty field does not stop every pointer change at once: an operation installed and checked before the
  field was set may still succeed (`IstMarkSafety.LateSuccessHappens`, exactly when: `LateSuccessOnly`). What holds is
  that a reader helps such an operation first, so that what readers get afterwards never changes again.
- `doUpdate` with InsertReplace turns a found pair into a bare value (CIST/brown_ext_ist_lf_impl.h:1591), which is later
  read as belonging to the key before the pointer; `IstUpdate.UpdateMeaning` states exactly when that is another key.
- `dcssHelp` returns, with a failure on the first cell, the value its own process read there. Another helper may have
  decided, so that value may equal the expected one; `DcssOutcome.Outcome` speaks of what was in the cell.
- `remove` of the two-level bins shifts the root's entries only if the emptied bin is neither the last nor the last but
  one (Finedex/level_bin_con.h:1320-1328); `LevelBinRemove.Remove` states exactly when pairs are lost, and
  `LevelBinLoss.ReachLoss` calls its way there.
- `make_segmentation` skips repeated keys; optimality is stated for strictly increasing keys.

## Model
| member | source | states |
|---|---|---|
| AbTree.ChildIndex | AB-Tree/brown_ext_abtree_lf_impl.h:94-102 | the keys before the result are not above the key, and the key at the result is above it |
| AbTree.KeyIndex | AB-Tree/brown_ext_abtree_lf_impl.h:103-111 | the keys before the result are below the key, and the key at the result is not |
| AbTree.GetChildIndex | AB-Tree/brown_ext_abtree_lf_impl.h:94-102 | the scanning loop computes the child index |
| AbTree.GetKeyIndex | AB-Tree/brown_ext_abtree_lf_impl.h:103-111 | the scanning loop computes the key index |
| AbTree.Search | AB-Tree/brown_ext_abtree_lf_impl.h:453-470 | the descending loop returns what the tree holds for the key |
| AbTree.BelowA | AB-Tree/brown_ext_abtree_lf_impl.h:200-202 | a degree is below the lower bound exactly when it is below two or four times the next degree is at most DEGREE |
| AbTreeBuild.ArrayCopy | AB-Tree/brown_ext_abtree_lf_impl.h:134-139 | the copied range of the destination holds the source range and nothing else of it changes |
| AbTreeBuild.InlineChild | AB-Tree/brown_ext_abtree_lf_impl.h:807-812 | the buffers of Absorb and Split hold the parent's entries with the child's contents in its place, and the buffers of size 2 * DEGREE suffice |
| AbTreeBuild.JoinSiblings | AB-Tree/brown_ext_abtree_lf_impl.h:1031-1053 | the loops over two siblings produce their contents in order, with the separating key between internal ones |
| AbTreeBuild.ParentOfMerged | AB-Tree/brown_ext_abtree_lf_impl.h:1075-1095 | the parent built by AbsorbSibling is the old one with one key and one pointer less and the merged node in place, on either side of the sibling |
| AbTreeBuild.DealOut | AB-Tree/brown_ext_abtree_lf_impl.h:1150-1184 | Distribute deals the joined contents out to two nodes without loss, the key between them going up |
| AbTreeSteps.InlineEquiv | AB-Tree/brown_ext_abtree_lf_impl.h:807-816 | putting an internal child's contents in its place keeps the search order and every search |
| AbTreeSteps.GroupEquiv | AB-Tree/brown_ext_abtree_lf_impl.h:855-880 | putting neighbouring children under a new node keeps the search order and every search |
| AbTreeSteps.JoinEquiv | AB-Tree/brown_ext_abtree_lf_impl.h:1030-1057 | joining two neighbouring leaves keeps the search order and every search |
| AbTreeSteps.SplitEquiv | AB-Tree/brown_ext_abtree_lf_impl.h:606-631 | splitting a leaf in two keeps the search order and every search |
| AbTreeMeaning.FixWeightSame | AB-Tree/brown_ext_abtree_lf_impl.h:798-888 | Absorb and Split keep order and key ranges, and `find` returns the same for every key |
| AbTreeMeaning.FixDegreeSame | AB-Tree/brown_ext_abtree_lf_impl.h:1021-1202 | AbsorbSibling, RootAbsorb and Distribute keep order and key ranges, and `find` returns the same for every key, wherever the parent has the second child that the code reads |
| AbTreeMeaning.RebalanceKeepsMeaning | AB-Tree/brown_ext_abtree_lf_impl.h:732-1215 | a rebalancing step anywhere in an ordered tree leaves it ordered, with the same answer to every search |
| AbTreeUpdate.OverflowSame | AB-Tree/brown_ext_abtree_lf_impl.h:584-631 | Overflow keeps the order and every search |
| AbTreeUpdate.InsertMeaning | AB-Tree/brown_ext_abtree_lf_impl.h:484-653 | insertion keeps the order and changes the answer for its own key only; a present key keeps its value unless it is to be replaced |
| AbTreeUpdate.EraseMeaning | AB-Tree/brown_ext_abtree_lf_impl.h:655-721 | deletion keeps the order and removes its own key only |
| AbTreeUpdate.SearchKeyReachesNode | AB-Tree/brown_ext_abtree_lf_impl.h:749-767 | the search for the search key of any node of an ordered tree runs down the path to that node |
| AbTreeBalance.FixWeightFits | AB-Tree/brown_ext_abtree_lf_impl.h:798-888 | Absorb and Split leave no node above DEGREE, and nodes of weight zero have two children |
| AbTreeBalance.FixDegreeFits | AB-Tree/brown_ext_abtree_lf_impl.h:1021-1202 | AbsorbSibling, RootAbsorb and Distribute at a parent with two children leave no node above DEGREE; a new root has weight one and, if internal, two children |
| AbTreeBalance.SharedFits | AB-Tree/brown_ext_abtree_lf_impl.h:1112-1200 | the two nodes made by Distribute have no violation |
| AbTreeBalance.SplitFits | AB-Tree/brown_ext_abtree_lf_impl.h:855-880 | the two children made by Split fit and have no violation |
| AbTreeBalance.OverflowFits | AB-Tree/brown_ext_abtree_lf_impl.h:606-631 | the two leaves made by Overflow fit and have no violation, and the height grows only at the root |
| AbTreeBalance.FixWeightNewNodes | AB-Tree/brown_ext_abtree_lf_impl.h:818-894 | every child below the result of Absorb or Split is an old node or free of violations, so the fix calls cover every new violation |
| AbTreeBalance.FixDegreeNewNodes | AB-Tree/brown_ext_abtree_lf_impl.h:1059-1208 | every child below the result of AbsorbSibling or Distribute at a parent with two children is an old node, the merged node that gets a fix call, or free of violations |
| AbTreeBalance.SiblingsAlike | AB-Tree/brown_ext_abtree_lf_impl.h:986-988 | two siblings of weight one are both leaves or both internal |
| AbTreeBalance.RebalanceBalanced | AB-Tree/brown_ext_abtree_lf_impl.h:732-1215 | a step keeps the weight sum of all root-to-leaf paths equal; only at the root may it change, by one |
| AbTreeBalance.StepKeepsGood | AB-Tree/brown_ext_abtree_lf_impl.h:484-1215 | every update and every rebalancing step keeps order, capacity, balance and the root's shape, and acts on the dictionary as its operation should |
| AbTreeBalance.ReachableTreesAreGood | AB-Tree/brown_ext_abtree_lf_impl.h:197-229 | every tree reachable from the initial empty leaf has all these properties and holds what the operations so far put there |
| AbTreeProgress.Progress | AB-Tree/brown_ext_abtree_lf_impl.h:769-773 | a violation always lets some rebalancing step be made |
| AbTreeProgress.StepExactlyWhenViolated | AB-Tree/brown_ext_abtree_lf_impl.h:732-1215 | a good tree admits a rebalancing step if and only if it has a violation |
| AbTreeProgress.RebalanceLess | AB-Tree/brown_ext_abtree_lf_impl.h:732-1215 | each step lowers, in lexicographic order, nodes of weight zero, their weighted depths, nodes, nodes of low degree |
| AbTreeProgress.RebalancingEnds | AB-Tree/brown_ext_abtree_lf_impl.h:732-1215 | however steps are chosen, rebalancing ends in a tree without violations that answers every search as the first one did |
| AbTreeProgress.CleanTreesAreLarge | AB-Tree/brown_ext_abtree_lf_impl.h:200-202 | a tree without violations and with h >= 1 internal levels holds at least 2 * a^h keys, a being DEGREE / 4, and two for DEGREE below twelve |
| AbTreeNarrow.SiblingExactlyWithTwo | AB-Tree/brown_ext_abtree_lf_impl.h:960-961 | the sibling that the code reads exists if and only if the parent has two children |
| AbTreeNarrow.FixDegreeTwoIff | AB-Tree/brown_ext_abtree_lf_impl.h:1021-1107 | with at least two children everywhere, a degree fix leaves an internal node with fewer if and only if it merges the only two children of a parent that is not the root |
| AbTreeNarrow.StepTwoIff | AB-Tree/brown_ext_abtree_lf_impl.h:484-1215 | every update and every rebalancing step of a tree with at least two children everywhere keeps that, unless and only unless it is such a merge, at any depth |
| AbTreeNarrowRun.OneChildReached | AB-Tree/brown_ext_abtree_lf_impl.h:1073-1107 | a run from the empty leaf reaches a tree with a parent, not the root, whose only child has too low a degree: the next fix call reads a child that is not there |
| DcssInvariant.StepInv | CIST/dcss_impl.h:27-177 | every step of every process keeps the protocol invariant: a tag sits only in its own target while its owner is finishing it, and what a helper knows is about the descriptor as long as the sequence number stands |
| DcssOutcome.WatchTracks | CIST/dcss_impl.h:27-159 | in every run what has been seen of an operation in memory matches the owner's place and the descriptor's state |
| DcssOutcome.Outcome | CIST/dcss_impl.h:125-159 | success: the tag entered the target once and was replaced once by the new value, and the first cell held the expected value meanwhile; failure on the first cell: the same with the old value coming back; failure on the target: the tag never entered memory |
| DcssOutcome.LinearizationInstant | CIST/dcss_impl.h:27-64 | a finished operation has an instant, with the target logically at its old value, at which the first cell held the expected value exactly if it succeeded |
| DcssOutcome.TagEntersOnce | CIST/descriptors_impl2.h:127-148 | a tag enters memory at most once and is gone before its sequence number moves on |
| DcssOutcome.StaleHelperIsHarmless | CIST/descriptors_impl2.h:79-107 | a helper whose descriptor was reused changes no cell and no descriptor, whatever state the loop handed it |
| DcssOutcome.LogicalValueChangesOnlyOnDecision | CIST/dcss_impl.h:27-64 | the logical value of a target changes only in the step that decides its operation, from old to new |
| DcssOutcome.ReadReturnsLogicalValue | CIST/dcss_impl.h:163-177 | a read never returns a tag, and returns the logical value at its last access |
| DcssOutcome.TargetFailureSeesOtherValue | CIST/dcss_impl.h:141-158 | an operation fails on its target only when that held an untagged other value |
| DcssProgress.OperationsEndDone | CIST/dcss_impl.h:125-177 | an operation under way goes on with its arguments or is done with a result, a read likewise; nothing is dropped |
| DcssProgress.OwnerAnswers | CIST/dcss_impl.h:27-64 | an owner leaves its operation only with its result, which is success exactly if the descriptor was decided so |
| DcssProgress.FailureReturnsWordSeen | CIST/dcss_impl.h:27-64 | the word returned with a failure on the first cell was in that cell while the owner was finishing the operation |
| DcssProgress.AloneAnswers | CIST/dcss_impl.h:125-159 | a caller that runs alone, from any state the others have left, makes at most 27 accesses, can go on until its answer, and gets the answer of one atomic step with the target left accordingly; an operation found in the target is helped first |
| DcssProgress.AloneSucceeds | CIST/dcss_impl.h:125-159 | with both cells as expected it succeeds and the target holds the new value |
| DcssProgress.AloneReads | CIST/dcss_impl.h:163-177 | a reader that runs alone makes at most 17 accesses and gets what the target holds once the operation in it has been helped |
| DcssCell.CalmIff | CIST/dcss_impl.h:27-64 | while the condition is false, no step changes the logical value of a target if and only if no undecided operation installed there has already seen the condition true (or would change nothing) |
| DcssSimulation.CellSimulates | CIST/dcss_impl.h:27-177 | each step of each run of the protocol is, at each target, a step of the cell: install, look at the first cell, decide by a look, remove |
| DcssSimulation.ReadsAfterChangeAgree | CIST/dcss_impl.h:163-177 | if from some state on the first cell never holds the expected value, all reads of the target that end after it return one value, which is the target's logical value from the first of them on |
| Plm.OptimalPiecewiseLinearModel.constructor | Finedex/piecewise_linear_model.h:101-107 | the new model has accepted no point |
| Plm.OptimalPiecewiseLinearModel.AddPoint | Finedex/piecewise_linear_model.h:109-197 | a point is accepted if and only if some real line passes within epsilon of it and of all accepted points; both extreme lines fit all accepted points; points out of order are refused |
| Plm.OptimalPiecewiseLinearModel.GetSegment | Finedex/piecewise_linear_model.h:199-203 | the two lines of the segment are the flattest and the steepest of all real lines within epsilon of every accepted point, or after a rejection of every point dropped, and its first key is theirs; for one point it spans that point plus and minus epsilon |
| Plm.FitExtreme | Finedex/piecewise_linear_model.h:273-279 | every real line within epsilon of the accepted points has a slope between those of the two lines of the rectangle |
| Plm.OptimalPiecewiseLinearModel.Reset | Finedex/piecewise_linear_model.h:205-209 | no point is left |
| Plm.FlattestToUpper | Finedex/piecewise_linear_model.h:151-159 | the walk stops at the point of the lower chain with the flattest line to the new upper point |
| Plm.SteepestToLower | Finedex/piecewise_linear_model.h:174-182 | the walk stops at the point of the upper chain with the steepest line to the new lower point |
| Plm.PopUpper | Finedex/piecewise_linear_model.h:165-169 | the upper chain is cut where it stops being convex with the new point |
| Plm.PopLower | Finedex/piecewise_linear_model.h:188-192 | the lower chain is cut where it stops being convex with the new point |
| Plm.OutsideInfeasible | Finedex/piecewise_linear_model.h:139-147 | a point outside both extreme lines admits no line at all |
| PlmState.SteepestFits | Finedex/piecewise_linear_model.h:149-163 | the new steepest line passes within epsilon of every accepted point |
| PlmState.FlattestFits | Finedex/piecewise_linear_model.h:172-186 | the new flattest line passes within epsilon of every accepted point |
| PlmSegmentation.MakeSegmentation | Finedex/piecewise_linear_model.h:283-312 | the ranges cover every index once; on strictly increasing keys each is epsilon-feasible, its segment gives its flattest and steepest line, and none but the last could be longer |
| PlmSegmentation.GreedyIsOptimal | Finedex/piecewise_linear_model.h:283-312 | no segmentation into epsilon-feasible ranges has fewer ranges |
| BlockBag.Blockbag.constructor | CIST/blockbag.h:315-327 | a new bag is empty |
| BlockBag.Blockbag.IsEmpty | CIST/blockbag.h:409-411 | true exactly for a bag without objects |
| BlockBag.Blockbag.Add | CIST/blockbag.h:366-382 | the object is on top, only the head block is partly filled, and the links still run from head to tail through distinct blocks |
| BlockBag.Blockbag.Remove | CIST/blockbag.h:453-475 | the object added last comes back, the rest stays, and an emptied head is unlinked |
| BlockBag.Blockbag.AppendMoveFullBlocks | CIST/blockbag.h:622-650 | exactly the objects in full blocks move: those very blocks are linked to the end of this bag through `tail`, the head block stays alone in the other, and the bags share no block |
| BlockBag.Blockbag.ComputeSizeInBlocks | CIST/blockbag.h:303-311 | walking the links counts the blocks |
| BlockBag.Blockbag.AppendMoveAll | CIST/blockbag.h:651-660 | the other bag is emptied into this one, no object lost or copied |
| BlockBag.SplitsAtHead | CIST/blockbag.h:257-261 | the head block holds exactly what the full blocks have no room for |
| DebraSafety.StepInv | CIST/reclaimer_debra.h:272-364 | every step of every thread keeps the invariant about announcements, checked threads, bags and free lists |
| DebraSafety.AdvanceOk | CIST/reclaimer_debra.h:334-345 | when the epoch is advanced, every operation under way was announced in the epoch that ends |
| DebraSafety.EpochMovesAtMostOnce | CIST/reclaimer_debra.h:317-322 | an announcement may be stale, but while an operation is under way the epoch moves at most once after its announcement |
| DebraSafety.OldestBagIsSafe | CIST/reclaimer_debra.h:190-246 | what a rotation finds in the oldest bag was retired before every operation now under way |
| DebraSafety.EpochSafety | CIST/reclaimer_debra.h:190-364 | an object on a free list or in the pool: every thread that was in an operation when it was retired has been outside since |
| DebraSafety.FreedOnce | CIST/reclaimer_debra.h:190-364 | every retired object is in exactly one bag, one free list or once in the pool, so none is freed twice |
| DebraSafety.ScanInRange | CIST/reclaimer_debra.h:334-338 | the scan of announcements never reads past the last thread |
| DebraProgress.RotationFrees | CIST/reclaimer_debra.h:190-246 | after a rotation the new current bag holds less than one block, everything it lost is on the free list below what was there, and the other bags are as before |
| DebraProgress.OperationsGoOn | CIST/reclaimer_debra.h:272-358 | no thread waits for another: its next step is always possible, and at most six end an operation |
| DebraProgress.EpochMoves | CIST/reclaimer_debra.h:330-345 | while every other thread is quiescent or announces the present epoch, more than 10n + 3 operations of one of n threads move the epoch, in any interleaving |
| DebraProgress.BlocksAreFreed | CIST/reclaimer_debra.h:190-345 | under that condition an object in a full block is on the free list or free after 30n + 5 operations of its thread |
| DebraProgress.ListIsDrained | CIST/reclaimer_debra.h:306-308 | an object on the free list is in the pool after as many operations of its thread as the list has objects, and one more |
| DebraProgress.ObjectsAreFreed | CIST/reclaimer_debra.h:190-345 | together: an object in a full block reaches the pool after a bounded number of operations of its thread |
| Ist.InterpolationSearch | CIST/brown_ext_ist_lf_impl.h:1478-1542 | the result is the number of keys not above the key; neither clamp is taken and neither assertion reached |
| Ist.Search | CIST/brown_ext_ist_lf_impl.h:860-890 | the descending loop returns what the tree holds for the key |
| Ist.FindIsMembership | CIST/brown_ext_ist_lf_impl.h:860-890 | a search returns a value for a key exactly when the tree holds that pair |
| Ist.PairsWithin | CIST/brown_ext_ist_lf_impl.h:1025-1049 | the in-order pairs of an ordered tree are strictly sorted and in its range |
| Ist.SamePairsSameFind | CIST/brown_ext_ist_lf_impl.h:860-890 | two ordered trees with the same pairs answer every search alike |
| IstRebuild.AddKVPairsSubset | CIST/brown_ext_ist_lf_impl.h:1052-1117 | exactly the requested slice of the in-order pairs goes to the builder, and what is left to skip and to add is exact |
| IstRebuild.CeilSqrt | CIST/brown_ext_ist_lf_impl.h:1175-1176 | the number of children is the ceiling of the square root of the number of pairs |
| IstRebuild.SlicesMeet | CIST/brown_ext_ist_lf_impl.h:1125-1127 | the slices of consecutive children meet, start at the first pair and end at the last |
| IstRebuild.PartsPartition | CIST/brown_ext_ist_lf_impl.h:1125-1127 | the slices of all children, one after the other, are the whole list |
| IstRebuild.PartIsSlice | CIST/brown_ext_ist_lf_impl.h:1125-1133 | the slice a child asks for is its part |
| IstBuild.CreateLeaf | CIST/brown_ext_ist_lf_impl.h:1759-1781 | the filling loop makes the leaf of the pairs |
| IstBuild.LeafHolds | CIST/brown_ext_ist_lf_impl.h:1759-1781 | a leaf holds exactly its pairs and is ordered wherever they fit |
| IstBuild.Build | CIST/brown_ext_ist_lf_impl.h:529-605 | the built subtree holds exactly the given pairs, is ordered wherever they fit, and is ideal: leaves of at most 48 pairs, inner degrees the square root of the number of pairs rounded up, children of even size |
| IstBuild.IdealIsLow | CIST/brown_ext_ist_lf_impl.h:538-546 | an ideal tree whose size is at most 48 squared h - 1 times has at most h levels |
| IstBuild.ChildSizes | CIST/brown_ext_ist_lf_impl.h:540-546 | above the leaf size every child gets at least two pairs and fewer than all |
| IstBuild.GetCASWord | CIST/brown_ext_ist_lf_impl.h:634-667 | nothing, one pair or a subtree, holding exactly the pairs |
| IstBuild.AddKVPairs | CIST/brown_ext_ist_lf_impl.h:1025-1049 | all pairs of a subtree, in order |
| IstBuild.BuildSubtree | CIST/brown_ext_ist_lf_impl.h:1120-1153 | the subtree for a child holds exactly the child's part, and the key to be written before it is the part's first key |
| IstBuild.AttachSubtrees | CIST/brown_ext_ist_lf_impl.h:1271-1300 | one helper alone, by its reserving and its helping loop, leaves each child of the new root holding its part, separated by the parts' first keys |
| IstBuild.CreateIdealConcurrent | CIST/brown_ext_ist_lf_impl.h:1168-1308 | the new word, as one helper alone makes it, holds exactly the pairs of the frozen subtree and fits wherever they fit |
| IstCollab.HelperGrows | CIST/brown_ext_ist_lf_impl.h:1120-1165 | with any number of helpers, every write of a key writes the first key of that child's part, no attached subtree is replaced, and the reservations only grow |
| IstCollab.NextInv | CIST/brown_ext_ist_lf_impl.h:1120-1300 | every step of every helper, the publication of the root and updates of it keep the invariant about keys, subtrees, reservations and helping |
| IstCollab.AttachedStays | CIST/brown_ext_ist_lf_impl.h:1153-1165 | while the root is being built, a child that is there never changes, whoever builds it again |
| IstCollab.HelperLeavesComplete | CIST/brown_ext_ist_lf_impl.h:1271-1308 | when any helper leaves its helping loop all children are there, and the root, until it is in use, holds exactly the pairs, in order |
| IstCollab.LatecomersHarmless | CIST/brown_ext_ist_lf_impl.h:1153-1165 | a helper still at work when the root is in use changes neither its keys nor its pointers |
| IstCollab.EveryStepCounts | CIST/brown_ext_ist_lf_impl.h:1271-1300 | each step of a helper brings it nearer to leaving, whatever the others do, and no step of another sets it back |
| IstCollab.AlwaysAStep | CIST/brown_ext_ist_lf_impl.h:1120-1300 | a helper that has not left can always go on |
| IstCollab.SqrtDivides | CIST/brown_ext_ist_lf_impl.h:1172-1176 | dividing by the ceiling of the square root leaves no child without pairs |
| IstBuild.RebuildKeepsMeaning | CIST/brown_ext_ist_lf_impl.h:1358-1372 | at the node whose pointer is swung to the rebuilt subtree, order, pairs and every search stay the same; IstRun has the whole tree |
| IstUpdate.UpdateMeaning | CIST/brown_ext_ist_lf_impl.h:1546-1650 | an insertion, with or without replacement, or deletion keeps the order and changes the answer for its own key only, if and only if it does not replace a pair by a bare value under another key; only InsertReplace can |
| IstUpdate.MisplacedIsLost | CIST/brown_ext_ist_lf_impl.h:1590-1592 | after a misplaced replacement the key just written is not found, or a pointer without a key before it holds a bare value |
| IstRun.RebuildStepKeeps | CIST/brown_ext_ist_lf_impl.h:1358-1372 | placing a rebuild operation or finishing one, at any depth, keeps order, pairs and every search of the whole tree |
| IstRun.StepMeaning | CIST/brown_ext_ist_lf_impl.h:1358-1660 | every update and every rebuild step of a whole tree keeps the order and acts on every search as its operation should, if and only if it misplaces no value |
| IstRun.ReachableTreesAnswer | CIST/brown_ext_ist_lf_impl.h:718-731 | every tree reachable from the empty one by updates and rebuild steps anywhere, none misplacing a value, is ordered and answers every search as the operations so far |
| IstRun.NothingMisplaced | CIST/brown_ext_ist_lf_impl.h:848-853 | with insertIfAbsent and erase only, that is every reachable tree |
| IstRun.ReplaceLosesKey | CIST/brown_ext_ist_lf_impl.h:1590-1592 | inserting any key into the empty tree and then again with replacement leaves a bare value that stands for no key |
| IstMarkSafety.NextInv | CIST/brown_ext_ist_lf_impl.h:956-1022 | every step of a helper, an update or a rebuild keeps the invariant about partial sums and finished counts |
| IstMarkSafety.DirtyNodesNeverChange | CIST/brown_ext_ist_lf_impl.h:956-1022 | once a plain word has been found in a pointer of a node whose dirty field is not zero, every later state has it as the logical value of the pointer, and every later plain word found there is the same |
| IstMarkSafety.LateSuccessOnly | CIST/dcss_impl.h:27-64 | some next step changes the logical value of a pointer of a dirty node if and only if an undecided operation is installed there that has read the dirty field as zero, and its new word differs |
| IstMarkSafety.LateSuccessHappens | CIST/dcss_impl.h:27-64 | for any two words there is a run in which a pointer changes from one to the other after its node has become dirty |
| IstMarkSafety.MarkAndCountExact | CIST/brown_ext_ist_lf_impl.h:956-1022 | every finished count is the exact number of pairs of a subtree all of whose pointers have their final values, then and in every later state |
| IstMarkSafety.HelpersAgree | CIST/brown_ext_ist_lf_impl.h:956-1022 | all helpers of a subtree return the same number |
| IstMarkProgress.AloneReturns | CIST/brown_ext_ist_lf_impl.h:956-1022 | from any state without operations in the pointers, a helper that runs alone returns the exact count after a bounded number of steps, and until then can go on |
| ElimHistory.BesideIsRight | Elim-AB-Tree/optik_btree.h:103-105 | directly before or after the published update, the eliminated operation returns what a sequential one would and changes nothing |
| ElimSafety.StepLegal | Elim-AB-Tree/optik_btree.h:414-625 | every step keeps the sequential history legal; only closing an update changes the dictionary it leaves |
| ElimSafety.ClosePublishes | Elim-AB-Tree/optik_btree.h:473-481 | closing an update publishes it in the elimination record |
| ElimSafety.ElimFinds | Elim-AB-Tree/optik_btree.h:83-107 | an operation that returns from the elimination record finds there an update that is in the history |
| ElimSafety.StepInv | Elim-AB-Tree/optik_btree.h:78-130 | every step of every thread keeps the invariant about slots, lock, version, elimination record and what readers have read |
| ElimRun.AddedInInterval | Elim-AB-Tree/optik_btree.h:101-105 | an operation takes its place in the history between its invocation and now |
| ElimRun.EveryRunIsLinearizable | Elim-AB-Tree/optik_btree.h:243-625 | in every run on one leaf there is one legal sequential history in time order with every completed operation once, with its result, inside its own interval; an even version means that the slots hold what the history leaves |
| ElimRun.EliminationIsLegal | Elim-AB-Tree/optik_btree.h:83-107 | an eliminated operation stands directly next to an update of its own key that was closed inside its own interval |
| ElimProgress.EndsWithOneResponse | Elim-AB-Tree/optik_btree.h:414-625 | in every run the step that ends an operation adds its one response; only an insertion that has found all slots used and marked the leaf ends without one |
| ElimProgress.LeavesOnlyFull | Elim-AB-Tree/optik_btree.h:486-553 | an insertion that leaves the leaf has found all slots used and has marked the leaf in this operation |
| ElimProgress.AloneAnswers | Elim-AB-Tree/optik_btree.h:414-625 | an operation begun in any state of any run on a leaf neither locked nor marked, and run alone, ends after at most DEGREE + 32 steps with the response, and the slots, that the dictionary in the slots demands; only for an absent key and a full leaf it marks the leaf instead |
| ElimSize.SizeIsExact | Elim-AB-Tree/optik_btree.h:466-485 | in every run the size field counts the used slots whenever the lock is free, the assertion that a free slot exists never fails, and a leaf is split only when all slots are used |
| ElimSize.HolderCounts | Elim-AB-Tree/optik_btree.h:466-485 | each step of the lock holder keeps the size field level with the used slots, up to the one it is writing |
| Learned.Train | common/lr_model_impl.h:35-78 | the trained line has the least squared error of all lines, its slope is positive from two keys on, and no training error exceeds maxErr |
| Learned.CovariancePositive | common/lr_model_impl.h:54-74 | of two strictly increasing sequences the covariance is positive |
| Learned.NormalIsLeast | common/lr_model_impl.h:73-76 | a line that meets the normal equations has the least squared error |
| Learned.MaxError | common/lr_model_impl.h:124-138 | no error exceeds the result, and some error equals it |
| Learned.PredictMonotone | common/lr_model_impl.h:87-91 | with a slope that is not negative, prediction is monotone |
| Learned.MonotoneInWindow | Kanva_impl/kanva_model_impl.h:141-145 | any monotone prediction with training errors at most maxErr puts every key within its window |
| Learned.LocateInLevelbin | Kanva_impl/kanva_model_impl.h:254-282 | a stored key is found, and any other key is sent to the one gap it belongs to |
| Learned.LearnedLookup | Kanva_impl/kanva_model_impl.h:121-145 | training, prediction and search together decide membership and give the position or the gap |
| Learned.BinarySearchBranchless | common/util.h:76-95 | the result is the number of keys below the key, for arrays of any length, with every read in bounds |
| LevelBin.FindLower | Finedex/level_bin_con.h:550-568 | the number of keys below the key |
| LevelBin.Find | Finedex/level_bin_con.h:403-425 | the value held for the key, if any |
| LevelBin.PutInPlace | Finedex/level_bin_con.h:1169-1174 | the slots shifted up in place, with the new entry where it belongs |
| LevelBin.InsertChild | Finedex/level_bin_con.h:1146-1191 | the pair is added; a full bin is split first and the separator lies between the halves |
| LevelBin.SplitInsert | Finedex/level_bin_con.h:1192-1228 | both halves are sorted, the separator lies between them, and exactly the new pair is added |
| LevelBinOps.InsertBefore | Finedex/level_bin_con.h:1032-1096 | making room in a full bin through the one before it adds exactly the new pair and keeps the separators |
| LevelBinOps.Insert | Finedex/level_bin_con.h:1013-1145 | an absent key is added, a present one refused, bins stay sorted and separated; retraining is asked for exactly when the bin for the key and the root are full and no pair can move to the bin before; without such a move the pair goes to the bin for its key, which is split in the middle if it is full |
| LevelBinRemove.Update | Finedex/level_bin_con.h:578-642 | a present key gets the value, an absent one is refused |
| LevelBinRemove.Remove | Finedex/level_bin_con.h:1270-1390 | exactly the key is taken out, if and only if the removal does not empty the last but one of three or more bins; otherwise pairs of another bin are lost |
| LevelBinRemove.LosesMore | Finedex/level_bin_con.h:1320-1328 | emptying the last but one of three or more bins loses the pairs of the last |
| LevelBinRemove.LosesExample | Finedex/level_bin_con.h:1320-1328 | three bins of one pair each are such an input |
| LevelBinLoss.ReachLoss | Finedex/level_bin_con.h:1013-1390 | calls of insertion and removal alone bring the empty bin to a state in which the removal of one key loses others |
| LevelBinRemove.Resort | Finedex/level_bin_con.h:347-364 | all pairs of all bins, strictly sorted, nothing lost or added |
| Aidel.Locate | Finedex/aidel_model_impl.h:225-229 | the trained key, or the gap the key belongs to |
| Aidel.HeldWhere | Finedex/aidel_model_impl.h:187-222 | a trained key is held by its own slot, any other key by its gap |
| Aidel.FindM | Finedex/aidel_model_impl.h:187-222 | the value held by the nest for the key, if any |
| Aidel.NewModel | Finedex/aidel_model_impl.h:26-49 | a model trained on sorted pairs holds exactly those pairs |
| Aidel.InsertRetrained | Finedex/aidel_model_impl.h:464-484 | turning a full bin into a nested model loses and adds nothing but the new pair |
| Aidel.InsertModelOrBin | Finedex/aidel_model_impl.h:443-488 | the key is added to the gap's content or refused if present, nothing else changes, and a bin becomes a model exactly when its insertion asks for retraining |
| Aidel.InsertM | Finedex/aidel_model_impl.h:419-437 | as insertion of an absent key into a map; a present key is refused |
| Aidel.UpdateM | Finedex/aidel_model_impl.h:350-382 | as update of a present key of a map; an absent key is refused |
| Aidel.RemoveM | Finedex/aidel_model_impl.h:497-533 | as removal of a key from a map, exactly when no root bin is lost by it |
| VersionedArray.NextInv | Kanva_RS/util.h:123-181 | every step keeps the invariant about births, timestamps and walks down the chain |
| VersionedArray.TimestampsDescend | Kanva_RS/util.h:123-153 | every superseded version has a timestamp, and timestamps never increase down the chain |
| VersionedArray.TimestampsAreFixed | Kanva_RS/util.h:123-129 | neither the value of a version nor its timestamp, once set, ever changes |
| VersionedArray.SnapshotsAgree | Kanva_RS/util.h:171-181 | any two snapshot reads for the same time, begun when the clock had reached it, return the same value, that of the same version settled before that time, or -1 |
| VersionedArray.SnapshotIsNewestBefore | Kanva_RS/util.h:171-181 | the value is that of the newest version stamped before the time, or -1 if there is none |
| VersionedValues.NextValues | Kanva_RS/util.h:131-153 | every step keeps the invariant that ties the values in the chain to the vCAS that put them there |
| VersionedValues.EveryVersionHasItsSwap | Kanva_RS/util.h:136-153 | in every run each version but the first was put there by one vCAS, answered true or about to, whose expected value is that of the version before and whose new value, a different one, is its own |
| VersionedValues.AnswersAreRight | Kanva_RS/util.h:131-153 | a vCAS that answered true without adding a version expected and wrote the value it found; one that answered false found another value or another vCAS's version after the one it loaded; a read answers the value of the version it saw |
| VersionedValues.SwapLoadedHead | Kanva_RS/util.h:136-153 | the version a vCAS answers about was the head when it loaded it |
| VersionedValues.PeekSawHead | Kanva_RS/util.h:131-134 | a read answers with the value that the head has at its second load |
| VersionedValues.EndsWithAnswer | Kanva_RS/util.h:131-181 | the step that ends an operation gives its answer, and no other step does |
| VersionedValues.EveryStepCounts | Kanva_RS/util.h:123-181 | whatever the others do, each step of a thread brings its operation nearer to its end, which is at most the length of the chain and six away after the load |

## Left out

- Benchmark drivers, loaders, thread pinning, statistics, memory allocation, destructors and debug output: measurement and platform plumbing.
- SCX and LLX, the tracker list, the lock-free bin and the linked list: their sources are not part of this model; an SCX is one atomic rewrite and the clock is any monotone one.
- Weak memory orders, 48-bit wrap-around of sequence numbers and floating-point rounding: idealised to sequential consistency, unbounded numbers and exact arithmetic.
- The packing of tags and mutable words into 64 bits: words are modelled by their fields.
- `helpProcess` and `getDescriptorTagptr` of DCSS: nothing calls them, and they could decide an operation before it is installed. Targets are written by DCSS only.
- AB-tree nodes are values: the arrays that fill new nodes are modelled in place, the swing of one pointer by an SCX as the rewrite of the tree; retry loops after failed LLX or SCX are steps that change nothing.
- AbTreeMeaning.FixDegreeSame: a parent with one child has no degree fix, because the code reads an unset pointer there.
- AbTreeBalance.FixDegreeFits: a parent with one child has no degree fix, as above.
- AbTreeBalance.FixDegreeNewNodes: a parent with one child has no degree fix, as above.
- AB-tree return values are not separate: they are what the tree held for the key before the update.
- `get_floating_point_segment` and `make_segmentation_data` of the piecewise linear model, and the vectorised searches.
- Plm.OptimalPiecewiseLinearModel.AddPoint: epsilon is a natural number, as in `make_segmentation`, so the exception for a negative one is not modelled.
- DEBRA with re-initialised threads or teardown: each thread initialises once. Retiring outside an operation or twice, and operations declared read-only, which do not scan, are not modelled.
- BlockBag.Blockbag.Add: the slots of a block are a sequence, and unlinked blocks are dropped instead of pooled.
- BlockBag.Blockbag.AppendMoveFullBlocks: the variant that starts after a given block is left out.
- Change counters and the rebuild heuristic of the interpolation search tree, its multi-counter root, the reclamation of a new root that another rebuild has subsumed, and the collaborative freeing of old subtrees. Rebuild steps may happen anywhere at any time.
- IstRun.StepMeaning: the word that finishes a rebuild is any word holding the frozen subtree's pairs, which is what IstBuild and IstCollab show of the one made; return values are what the tree held for the key before.
- IstUpdate.UpdateMeaning: an update whose path meets a rebuild operation helps it and starts again, which changes nothing by itself; the modelled one was already below it.
- Elim-AB-Tree rebalancing and whole-tree search: one leaf is modelled. An insertion that overflows the leaf leaves it, marked, without a result of its own.
- Learned.Train: training on no keys, which leaves the weights as they were, is not modelled.
- Two-level bins and the nest are values under the lock of their slot: optimistic reads, versions and links between bins are not captured, and `scan` and the variants without retraining are left out.
- Kanva's insertion of a trained key, `VersionedArray::insert`, which retries `read` and vCAS, marks on version pointers, and `scan` of Kanva_RS.
- The training drivers, which choose step sizes heuristically and call the modelled training.
