# Usd Optimize: what its algorithms keep

A Dafny model of the parts of Usd Optimize whose correctness does not follow from reading one function: rewrites of a
scene that have to preserve what it shows, concurrent protocols, and list and tree algorithms with hidden invariants.
Scenes are finite trees of prims addressed by paths of names; matrices are real and written for row vectors, as in USD;
collections that the program mutates are fields that methods reassign, and every such method is proved equal to a
function about which the properties are proved.

The files, bottom up (`Wrappers` and `Sequences` hold what all of them share):

- **Hierarchy deduplication.** `SceneTree` (the scene), `Matching` (structural key, value comparison, fingerprint),
  `Partitioning` (first-fit classes and their bucketed form), `LevelMerging` (one level of the search, over any kind of
  item), `MergePlans` (what a plan of prototypes and duplicates may look like), `HierarchySearch` (the level-by-level
  search), `HierarchyReferences` (duplicates become references), `HierarchyMeaning` (what a reader of the stage sees);
  `MatchMeaning`, `SearchCompleteness`, `HierarchyDrift` and `DriftExample` (what matching means, that the search leaves
  nothing out, and how far values drift within a tolerance).
- **Stage metrics.** `Affine` and `ChangeOfBasis` (maps, units and up axis), `XformStack` and `XformConversion` (op stacks
  and each way of rewriting them), `LayerEdits` (the edits as they are carried out), `StageMetrics` (whole hierarchies),
  `SkeletonSearch` (the cache of skeletons that decides how each prim is rewritten), `UnitChange` (the operation on a layer
  with its units, in coordinates).
- **Instancing.** `PivotOps`, `PrimSplitting` and `SplitPlacement` (splitting a prim into a transform and its geometry, and
  what is read from both), `DeepTransform` (a transform inserted into an op stack), `PointInstancing` (meshes replaced by
  point instances).
- **Concurrent parts.** `MeshPipeline` and `PipelineOutcome` (the pipeline and what a run leaves), `Coalescer` and
  `CoalescerHistory`, `ReportLog`; `KeyedSums`, `SceneCounters`, `SceneStats`, `PrimvarSizes` and `StatsMeaning` (maps added
  up, what one prim contributes, the worklist, the one counter that depends on it, and what all numbers are).
- **Lists, trees and configurations.** `UniqueNames`, `ArgumentGroups`, `PrimResolution`, `PrimRemoval`, `ConfigRunners`
  and `ConfigMeaning`.

## Where the code does not do what it is for

Each of these is a theorem with its exact condition, and most have a concrete instance beside them.

- Deduplication is described as lossless for exact matching (`DeduplicateHierarchies.cpp:826-872`). A duplicate root that
  declares an xform attribute without a value takes the prototype's value through the reference; the original tree comes
  back exactly when that does not happen (`DeduplicationIsLossless`, `PlacementCanBeLost`), and for every search exactly
  when no two copies in the scene differ so (`SceneIsSafeIff`), as where all declared xform attributes have values
  (`ValuedSceneIsSafe`).
- The tolerance of deduplication is described as the acceptable difference between subtrees
  (`DeduplicateHierarchies.cpp:790-799`). Inside a prototype prims become references themselves, so what is read drifts by
  the tolerance for every reference on the way, and not by more (`DeduplicationDriftsIff`); with two it can exceed it
  (`DriftExceedsTolerance`). Matching within a tolerance is not transitive either, so which prims are merged depends on
  their order (`MatchingIsNotTransitive`).
- `CollapsedXformTransformer` authors an op order without the reset token, so a collapsed prim that reset the stack is
  placed under its parent; and below a corrected skeleton root a prim that resets the stack escapes the correction.
  Everything lands right exactly when every such reset shields its prim from nothing that would move it
  (`StageConvertsIff`, `ResetCanBeLost`).
- When a single-axis rotation without a value is renamed onto one with a value, the old value stays
  (`SwapIsRight`, `StaleRotationStays`).
- The composition transform is inserted outside the pivots with the comment that the geometry stays where it was. Around
  one pivot pair that closes the stack this is so exactly when the transform commutes with the turning inside the pair and
  fixes its translation (`ComposedAroundPivot`, `PlacementCanChange`); for ops after the pairs exactly when it also
  commutes with those (`ComposedBeforePlainOps`); for any mix and nesting it is enough to pass every piece
  (`ComposedAroundPivots`).
- `Coalescer` wakes one waiter when a timer ends. A second thread in `wait` is then left behind: over a whole run nobody is
  exactly when no timer ends while two are blocked, so never if only one thread waits (`NeverForgottenIff`,
  `OneWaiterIsSafe`, `SecondWaiterIsForgotten`, `ForgottenStaysForgotten`).
- `positionArgument` documents that the argument ends up after the other one; that holds exactly when it was on its left
  (`PositionedAfterIff`). `addGroup` only ever moves arguments from the left (`AddGroup`), and gives the declared
  order exactly for joins nested one level deep (`GroupInPreorderIff`).
- The two config runners differ on names that do not resolve. They agree, whatever the operations do, exactly for
  configurations that meet no such name, or skip only such names and options before a malformed entry
  (`RunnersAgreeIff`). The second one does not hand the report path back when it meets a malformed entry
  (`ReportHandedBackIff`). Mapping arguments a second time changes nothing exactly for settled renames
  (`MappingTwiceIff`, `ChainMovesOn`).
- Pruned traversal and the check of all ancestors are meant to resolve the same prims. When only meshes are wanted they
  differ below materials, and generally below prims that are not visited (`PruningAgreesIff`,
  `ResolvedIsCheckedIff`, `MeshUnderMaterial`).
- The size reported for a primvar is assumed to be the same everywhere (`Stats.cpp:125-128`). A task assigns it, zero
  included (`Stats.cpp:477`), so agreement of the sizes that are not zero is not enough: no schedule matters exactly when
  these and the sizes of the lowest prims that have the primvar are all the same (`SizeIndependentIff`,
  `SizesCanDiffer`).
- Splitting a batch of prims removes what lies at their paths with everything below. Every split prim survives this, to
  be renamed, exactly when no prim of the batch that the layer has lies above another (`SplitPrimsKeptIff`,
  `InnerPrimIsLost`); it can be renamed exactly when none lies above another at all and the layer has every prim it has
  something below (`RenamesCanBeginIff`); what the layer has below a prim is lost exactly when it has the prim itself
  (`BelowIsLostIff`). The only caller passes leaves.

## Model

| member | source | states |
|---|---|---|
| Matching.StructuralHash | source/operations/deduplicateHierarchies/DeduplicateHierarchies.cpp:119-152 | the loop over the subtree collects exactly the relative path, type and property names of every prim |
| Matching.KeyDeterminesShape | source/operations/deduplicateHierarchies/DeduplicateHierarchies.cpp:108-152 | two subtrees have the same key if and only if they have the same shape, names, types and property names |
| Matching.CompareAttribute | source/operations/deduplicateHierarchies/DeduplicateHierarchies.cpp:300-331 | one attribute matches when both sides lack it or a value, or both values are equal up to the tolerance |
| Matching.FirstPass | source/operations/deduplicateHierarchies/DeduplicateHierarchies.cpp:290-331 | the loop over one prim's attributes finds a mismatch exactly when there is one, and remembers what it saw |
| Matching.SecondPass | source/operations/deduplicateHierarchies/DeduplicateHierarchies.cpp:333-345 | the loop over the other prim's attributes fails exactly on one the first pass did not see |
| Matching.ComparePrims | source/operations/deduplicateHierarchies/DeduplicateHierarchies.cpp:271-352 | both passes together decide whether all compared attributes of two prims match |
| Matching.SubtreeValuesEqual | source/operations/deduplicateHierarchies/DeduplicateHierarchies.cpp:271-352 | walking two subtrees in step decides whether all their prims match, root placement ignored |
| Matching.ExactMatchMeansCopy | source/operations/deduplicateHierarchies/DeduplicateHierarchies.cpp:271-352 | at tolerance 0 with shader outputs compared, same shape and matching values mean equal trees but for the roots' placement |
| Matching.ValueFingerprint | source/operations/deduplicateHierarchies/DeduplicateHierarchies.cpp:375-443 | the running hash is the fold of every prim's participating attributes in traversal order |
| Matching.FingerprintIsNecessary | source/operations/deduplicateHierarchies/DeduplicateHierarchies.cpp:355-443 | structurally equal subtrees whose values match have the same fingerprint, for every tolerance and every mixing function |
| Matching.FingerprintNeedsStructuralGroup | source/operations/deduplicateHierarchies/DeduplicateHierarchies.cpp:355-443 | without the structural precondition this fails: a declared attribute without a value matches an absent one |
| MatchMeaning.MatchingIff | source/operations/deduplicateHierarchies/DeduplicateHierarchies.cpp:214-352 | for every tolerance, values of structurally equal subtrees match if and only if at every path and compared attribute both lack a value or both have one: floats of one type and size with every component less than the tolerance apart, other values the same |
| MatchMeaning.MatchesItself | source/operations/deduplicateHierarchies/DeduplicateHierarchies.cpp:271-352 | every subtree matches itself |
| MatchMeaning.MatchingIsSymmetric | source/operations/deduplicateHierarchies/DeduplicateHierarchies.cpp:271-352 | it does not matter which of two subtrees is compared with which |
| MatchMeaning.ExactIsTransitive | source/operations/deduplicateHierarchies/DeduplicateHierarchies.cpp:446-470 | with tolerance 0 matching is transitive |
| MatchMeaning.MatchingIsNotTransitive | source/operations/deduplicateHierarchies/DeduplicateHierarchies.cpp:465-470 | for every tolerance above 0, three subtrees of which the outer two do not match although each matches the middle one |
| Partitioning.PlaceLoop | source/operations/deduplicateHierarchies/DeduplicateHierarchies.cpp:500-517 | a member joins the first class whose representative equals it, or starts a new class |
| Partitioning.FirstFitLoop | source/operations/deduplicateHierarchies/DeduplicateHierarchies.cpp:499-517 | the naive loop over all members computes the first-fit classes |
| Partitioning.FillBuckets | source/operations/deduplicateHierarchies/DeduplicateHierarchies.cpp:473-485 | each bucket holds the members with its key in order, buckets in order of first appearance |
| Partitioning.PartitionByKey | source/operations/deduplicateHierarchies/DeduplicateHierarchies.cpp:471-525 | partitioning bucket by bucket gives the classes of each bucket |
| Partitioning.BucketingKeepsClasses | source/operations/deduplicateHierarchies/DeduplicateHierarchies.cpp:446-525 | if equal members have equal keys, the bucketed classes are a permutation of the naive ones, with the same members in the same order in each |
| Partitioning.FirstFitIsProper | source/operations/deduplicateHierarchies/DeduplicateHierarchies.cpp:446-525 | members of a class equal its representative, classes are disjoint, and no member is listed twice |
| Partitioning.FirstFitIsPermutation | source/operations/deduplicateHierarchies/DeduplicateHierarchies.cpp:446-525 | the classes contain every member exactly once |
| Partitioning.OneIsListed | source/operations/deduplicateHierarchies/DeduplicateHierarchies.cpp:499-517 | of two different members that equal each other at least one is listed behind a representative |
| Partitioning.BothInOneClass | source/operations/deduplicateHierarchies/DeduplicateHierarchies.cpp:499-517 | where equality is an equivalence, equal members are in one class |
| LevelMerging.FollowerIsCopy | source/operations/deduplicateHierarchies/DeduplicateHierarchies.cpp:549-669 | whatever is merged is in the same structural group as its prototype and equal to it |
| LevelMerging.FollowerIsUnique | source/operations/deduplicateHierarchies/DeduplicateHierarchies.cpp:549-669 | within a level nothing is merged twice, into two prototypes, or both a prototype and merged |
| LevelMerging.PartitionByValues | source/operations/deduplicateHierarchies/DeduplicateHierarchies.cpp:471-525 | the bucketed classes of a group are computed; where equal members share a fingerprint they are a permutation of those of plain comparison |
| LevelMerging.RecordClasses | source/operations/deduplicateHierarchies/DeduplicateHierarchies.cpp:602-638 | the loop over the classes adds exactly their links to the plan and their duplicates to the pruned set |
| LevelMerging.ProcessGroup | source/operations/deduplicateHierarchies/DeduplicateHierarchies.cpp:574-639 | one structural group adds exactly its own share of the level's links |
| LevelMerging.MergeLevel | source/operations/deduplicateHierarchies/DeduplicateHierarchies.cpp:553-645 | whatever order the groups and buckets are visited in, the level's plan and pruned set are the specified ones |
| MergePlans.SumIsTidy | source/operations/deduplicateHierarchies/DeduplicateHierarchies.cpp:904-945 | adding a level's plan to an earlier one keeps: listed once, one prototype each, roles disjoint, nothing recorded below a duplicate |
| HierarchySearch.HandleFingerprintSound | source/operations/deduplicateHierarchies/DeduplicateHierarchies.cpp:355-443 | the fingerprint of a level's prims is sound within structural groups |
| HierarchySearch.FingerprintsKeepClasses | source/operations/deduplicateHierarchies/DeduplicateHierarchies.cpp:355-525 | for every tolerance, bucketing a structural group by fingerprint gives the classes of naive pairwise comparison |
| HierarchySearch.CollectNext | source/operations/deduplicateHierarchies/DeduplicateHierarchies.cpp:647-668 | the next level is the children of all prims not merged and not excluded, in order |
| HierarchySearch.ProcessLevel | source/operations/deduplicateHierarchies/DeduplicateHierarchies.cpp:549-669 | one round extends the plan by the level's plan and returns the next level |
| HierarchySearch.NextLevelIsSmaller | source/operations/deduplicateHierarchies/DeduplicateHierarchies.cpp:904-945 | the prims at and below the level strictly decrease, so the search ends |
| HierarchySearch.LevelPlanTidy | source/operations/deduplicateHierarchies/DeduplicateHierarchies.cpp:549-669 | the plan of one level of unrelated prims is tidy |
| HierarchySearch.NextLevelUnrelated | source/operations/deduplicateHierarchies/DeduplicateHierarchies.cpp:647-669 | no prim of the next level lies below another |
| HierarchySearch.NextLevelBelow | source/operations/deduplicateHierarchies/DeduplicateHierarchies.cpp:647-669 | nothing on the next level was recorded before or lies below a duplicate |
| HierarchySearch.LevelKeepsPlan | source/operations/deduplicateHierarchies/DeduplicateHierarchies.cpp:904-945 | a round keeps the plan tidy and all its merges between copies |
| HierarchySearch.FindDuplicates | source/operations/deduplicateHierarchies/DeduplicateHierarchies.cpp:904-945 | the round loop with its depth limit computes the specified search, and terminates |
| HierarchySearch.SearchIsSound | source/operations/deduplicateHierarchies/DeduplicateHierarchies.cpp:904-945 | from unrelated starting prims the whole search gives a tidy plan that merges only copies |
| SearchCompleteness.CopiesAreFound | source/operations/deduplicateHierarchies/DeduplicateHierarchies.cpp:647-668 | of two matching, structurally equal prims free of arcs, equally far below starting prims and not too deep, with no duplicate above and no material at them or on the way, at least one becomes a reference; with tolerance 0 both belong to the same prototype |
| SearchCompleteness.OnlyReachedAreMerged | source/operations/deduplicateHierarchies/DeduplicateHierarchies.cpp:904-945 | whatever is merged is as far below a starting prim as its prototype, not deeper than the limit, with no material at it or on the way |
| HierarchyReferences.RewriteAt | source/operations/deduplicateHierarchies/DeduplicateHierarchies.cpp:728-772 | a path above which nothing was replaced leads to the rewritten form of the prim that was there |
| HierarchyReferences.ReplaceDuplicate | source/operations/deduplicateHierarchies/DeduplicateHierarchies.cpp:740-769 | one edit takes the stage from the rewriting of the duplicates done so far to that with one more, and fails exactly on a missing prim |
| HierarchyReferences.ReplaceDuplicates | source/operations/deduplicateHierarchies/DeduplicateHierarchies.cpp:738-770 | the same for the list of one prototype |
| HierarchyReferences.ApplyInternalReferences | source/operations/deduplicateHierarchies/DeduplicateHierarchies.cpp:728-772 | in whatever order the prototypes come, the stage becomes the simultaneous rewriting; success says that no duplicate was missing |
| HierarchyMeaning.RewrittenPrim | source/operations/deduplicateHierarchies/DeduplicateHierarchies.cpp:740-769 | on the rewritten stage a duplicate has its own name, type and attributes, a reference to its prototype and no children; all else that is not below a duplicate keeps everything |
| HierarchyMeaning.Readable | source/operations/deduplicateHierarchies/DeduplicateHierarchies.cpp:549-772 | every prim of the rewritten stage can be expanded, with fuel bounded by twice its size |
| HierarchyMeaning.DeduplicationIsReadable | source/operations/deduplicateHierarchies/DeduplicateHierarchies.cpp:549-772 | for every tolerance no reference dangles and none is cyclic, nested prototypes included |
| HierarchyMeaning.DeduplicationIsLossless | source/operations/deduplicateHierarchies/DeduplicateHierarchies.cpp:549-772 | with exact matching, expanding all references gives the original tree if and only if every merged placement is kept |
| HierarchyDrift.DeduplicationDriftsIff | source/operations/deduplicateHierarchies/DeduplicateHierarchies.cpp:214-352 | for every tolerance, expanding all references gives the original tree with the same types, names and values, floats off by less than the tolerance for every reference on the way to them, if and only if every merged placement is kept |
| DriftExample.DriftExceedsTolerance | source/operations/deduplicateHierarchies/DeduplicateHierarchies.cpp:790-799 | a scene that the search deduplicates so that a value is read up to nearly twice the tolerance off |
| HierarchyDrift.HopsAreFew | source/operations/deduplicateHierarchies/DeduplicateHierarchies.cpp:549-772 | a reader follows no more references on the way to a prim than there are names in its path |
| HierarchyMeaning.SceneIsSafeIff | source/operations/deduplicateHierarchies/DeduplicateHierarchies.cpp:549-772 | every search, from whatever prims and to whatever depth, gives a stage that expands to the original, if and only if no two copies of the scene differ in which xform properties have values |
| HierarchyMeaning.ValuedSceneIsSafe | source/operations/deduplicateHierarchies/DeduplicateHierarchies.cpp:549-772 | it does where every declared xform property has a value |
| HierarchyMeaning.Deduplicate | source/operations/deduplicateHierarchies/DeduplicateHierarchies.cpp:904-980 | the whole operation succeeds and leaves a stage with these two properties |
| HierarchyMeaning.PlacementCanBeLost | source/operations/deduplicateHierarchies/DeduplicateHierarchies.cpp:728-772 | a scene of two prims that are merged although the placement is not kept; with exact matching no expansion gives the original |
| Affine.ThenAssociates | source/operations/editStageMetrics/EditStageMetrics.cpp:205-224 | composing maps is associative, by their action on points |
| Affine.SameMap | source/operations/editStageMetrics/EditStageMetrics.cpp:205-224 | two maps that agree on all points are equal |
| ChangeOfBasis.BasisUndone | source/operations/editStageMetrics/EditStageMetrics.cpp:530-586 | the rotation given to points is the inverse of the change of basis matrix |
| ChangeOfBasis.MapConverted | source/operations/editStageMetrics/EditStageMetrics.cpp:161-166 | scaling a matrix's translation and changing its basis is conjugation by the conversion of points |
| ChangeOfBasis.ConvertedMoves | source/operations/editStageMetrics/EditStageMetrics.cpp:530-586 | moving a converted point by a converted map is converting the moved point |
| ChangeOfBasis.ConjugateInverse | source/operations/editStageMetrics/EditStageMetrics.cpp:530-586 | inverse ops need no conversion of their own: the inverse of the converted op is the converted inverse |
| ChangeOfBasis.RoundTrip | source/operations/editStageMetrics/EditStageMetrics.cpp:530-586 | converting to other metrics and back restores every point and map |
| ChangeOfBasis.BoxTurns | source/operations/editStageMetrics/EditStageMetrics.cpp:336-349 | turning two corners and reordering gives the box of exactly the turned points |
| XformStack.ValueConverts | source/operations/editStageMetrics/EditStageMetrics.cpp:641-964 | converting a translation, scale, rotation or matrix attribute conjugates its map |
| XformStack.AxisAfterIsRotated | source/operations/editStageMetrics/EditStageMetrics.cpp:1392-1397 | the renaming table is where the rotation takes each axis, with its direction |
| XformStack.FindNewAxis | source/operations/editStageMetrics/EditStageMetrics.cpp:1392-1428 | the first component that is not zero names the new axis and its sign the direction |
| XformStack.AngleConverts | source/operations/editStageMetrics/EditStageMetrics.cpp:1383-1514 | the renamed and possibly negated rotation is the conjugate of the old one |
| XformStack.SwapIsRight | source/operations/editStageMetrics/EditStageMetrics.cpp:1276-1364 | every rotation gets its own new value if and only if no valueless one is renamed onto one with a value |
| XformConversion.RenamedOrderIs | source/operations/editStageMetrics/EditStageMetrics.cpp:1333-1363 | the rewritten order renames each token in place: no op lost, repeated or moved |
| XformConversion.PerOpConverts | source/operations/editStageMetrics/EditStageMetrics.cpp:1262-1514 | rewriting a prim op by op conjugates its local map and keeps its reset token |
| XformConversion.StaleRotationStays | source/operations/editStageMetrics/EditStageMetrics.cpp:1305-1313 | two rotations, one without a value: the stale angle is left behind |
| XformConversion.UpAxisCorrects | source/operations/editStageMetrics/EditStageMetrics.cpp:1520-1560 | the correction appended to the order applies to points before all other ops |
| XformConversion.CollapsedConverts | source/operations/editStageMetrics/EditStageMetrics.cpp:1075-1176 | the single matrix is the conjugated local map, with the extra rotation innermost where asked for, and the prim no longer resets the stack |
| XformConversion.SkeletonCorrects | source/operations/editStageMetrics/EditStageMetrics.cpp:1723-1796 | the prepended ops convert the whole prim from outside, behind a reset token |
| LayerEdits.PrimSpec.ConvertOps | source/operations/editStageMetrics/EditStageMetrics.cpp:620-976 | attribute by attribute, every op that is not a single-axis rotation is converted and nothing else changes |
| LayerEdits.PrimSpec.FindRemaps | source/operations/editStageMetrics/EditStageMetrics.cpp:1286-1290 | exactly the authored forward single-axis rotations are remapped, with the values read before anything is written |
| LayerEdits.PrimSpec.WriteRemaps | source/operations/editStageMetrics/EditStageMetrics.cpp:1292-1313 | in whatever order the remappings come, the new attributes hold the values read before |
| LayerEdits.PrimSpec.RemoveOld | source/operations/editStageMetrics/EditStageMetrics.cpp:1315-1331 | exactly the old attributes that nothing was renamed to disappear |
| LayerEdits.PrimSpec.RewriteOrder | source/operations/editStageMetrics/EditStageMetrics.cpp:1333-1363 | the loop over the order computes the specified rewriting |
| LayerEdits.PrimSpec.RenameRotations | source/operations/editStageMetrics/EditStageMetrics.cpp:1276-1364 | all phases together compute the specified renaming |
| LayerEdits.PrimSpec.ResolveCorrectionName | source/operations/editStageMetrics/EditStageMetrics.cpp:1838-1849 | the loop ends with the least suffix that gives a name the prim does not have |
| LayerEdits.PrimSpec.AddUpAxisCorrection | source/operations/editStageMetrics/EditStageMetrics.cpp:1534-1555 | the edit that appends the correction |
| LayerEdits.PrimSpec.Collapse | source/operations/editStageMetrics/EditStageMetrics.cpp:1092-1175 | the edit that replaces all ops by one matrix |
| LayerEdits.PrimSpec.CorrectSkeleton | source/operations/editStageMetrics/EditStageMetrics.cpp:1739-1790 | the edit that prepends the skeleton's correction |
| StageMetrics.OrderRewritten | source/operations/editStageMetrics/EditStageMetrics.cpp:2086-2240 | the order of a rewritten prim: corrections before all ops, behind a reset token, for a skeleton root that is kept; one matrix where ops are collapsed; else every op in its place, with axes exchanged, and one more at the end for a shape |
| StageMetrics.XformRewritten | source/operations/editStageMetrics/EditStageMetrics.cpp:2086-2240 | what each way of rewriting makes of a prim's local map and of its reset token |
| StageMetrics.PlacedRight | source/operations/editStageMetrics/EditStageMetrics.cpp:2086-2240 | a prim under a rightly placed parent is rightly placed if its reset token does no harm |
| StageMetrics.LostResetShows | source/operations/editStageMetrics/EditStageMetrics.cpp:1139-1149 | if all points of a prim land right, its reset token is kept or shields it from nothing that would move it |
| StageMetrics.AllPointsLand | source/operations/editStageMetrics/EditStageMetrics.cpp:1887-2317 | for every hierarchy, scale and axis change, every point of every prim lands on its converted world position if resets are harmless |
| StageMetrics.StageConverts | source/operations/editStageMetrics/EditStageMetrics.cpp:2562-2684 | the world positions of all points of a layer become their converted positions |
| StageMetrics.StageConvertsIff | source/operations/editStageMetrics/EditStageMetrics.cpp:1075-1176 | all points of a layer land right if and only if every reset token is harmless: kept, or what it shields from changes nothing |
| UnitChange.PlacesKept | source/operations/editStageMetrics/EditStageMetrics.cpp:2562-2684 | every point of the edited layer is where it was: its new coordinates, turned, times the new meters per unit are the old ones times the old meters per unit; units closer than rounding are replaced without scaling, with an error no larger than that |
| UnitChange.NearlyOne | source/operations/editStageMetrics/EditStageMetrics.cpp:2580-2588 | leaving out a scale within rounding of one moves a coordinate by at most that part of it |
| UnitChange.Layer.Execute | source/operations/editStageMetrics/EditStageMetrics.cpp:2562-2684 | the branches of the operation give the layer these units, this up axis and these points |
| StageMetrics.ResetCanBeLost | source/operations/editStageMetrics/EditStageMetrics.cpp:1139-1149 | a concrete layer whose collapsed child moves |
| SkeletonSearch.MarkDescendants | source/operations/editStageMetrics/EditStageMetrics.cpp:1818-1823 | everything below a skeleton root is marked as inside it and no other entry changes |
| SkeletonSearch.FindSkeletons | source/operations/editStageMetrics/EditStageMetrics.cpp:1804-1830 | one pruned traversal records the skeleton roots that lie in no other skeleton as roots, all prims below them as inside, nested roots included, and nothing else |
| SkeletonSearch.InsideIff | source/operations/editStageMetrics/EditStageMetrics.cpp:1804-1830 | inside a skeleton means strictly below a skeleton root |
| SkeletonSearch.ConversionFollowsCache | source/operations/editStageMetrics/EditStageMetrics.cpp:2347-2405 | in the converted stage every prim is what its own entry alone demands: left alone, corrected as a root, or rewritten |
| PivotOps.PivotXformOps | source/core/src/Utils.cpp:1346-1400 | the two passes keep exactly the ops that occur forward and inverted, in their original order |
| PivotOps.PairsCancel | source/core/src/Utils.cpp:921-946 | translations that all occur forward and inverted, in any order, add up to nothing |
| PivotOps.SplitKeepsPlacement | source/core/src/Utils.cpp:867-1014 | the child's pivot ops are the identity, so the composed transform of a split prim is unchanged |
| PivotOps.OrphansAreDropped | source/core/src/Utils.cpp:1350-1372 | an op without its inverse, or the other way round, is never copied to the child |
| PrimSplitting.EveryPropertyOnce | source/core/src/Utils.cpp:724-745 | in the resulting layer every property of a split prim is on exactly one side with its value, pivots also on the child, and nothing else is there |
| PrimSplitting.Route | source/core/src/Utils.cpp:998-1001 | the loop over the properties puts each on its side |
| PrimSplitting.WriteTemporaries | source/core/src/Utils.cpp:979-1026 | the write phase creates the split prims under temporary names and lists removals and renames |
| PrimSplitting.SplitBatch | source/core/src/Utils.cpp:867-1049 | each rename is applied once, in chunks of 500, and the layer ends up with the split prims in place of what was at and below their paths, and nothing else changed |
| SplitPlacement.PivotsAreThePairs | source/core/src/Utils.cpp:1346-1400 | the pivots are the ops listed forward and inverted, each once and in their order |
| SplitPlacement.FillRecords | source/core/src/Utils.cpp:884-970 | the read phase records for each prim the attributes of its pivot pairs and the order that lists them |
| SplitPlacement.SplitAsRead | source/core/src/Utils.cpp:724-745 | of the resulting layer: the transform reads the prim's own op stack and has the material binding, the child reads exactly the pivot pairs and has everything else, and where pivots are translations it is placed as the prim was |
| SplitPlacement.SplitPrims | source/core/src/Utils.cpp:867-1049 | both phases together give such a layer for every prim, and nothing else changes |
| PrimSplitting.NestedJobIsLost | source/core/src/Utils.cpp:1020-1027 | with nested prims the removal of the outer one takes the temporary prim of the inner one |
| PrimSplitting.SplitPrimsKeptIff | source/core/src/Utils.cpp:1020-1027 | for any batch the removals leave all temporary prims if and only if no prim of the batch that the layer has lies above another |
| PrimSplitting.RenamesCanBeginIff | source/core/src/Utils.cpp:1020-1048 | for any batch with free names all of them can then be renamed if and only if no prim of the batch lies above another and the layer has every prim it has something below |
| PrimSplitting.BelowIsLostIff | source/core/src/Utils.cpp:1020-1027 | what the layer has below just one prim of the batch is lost if and only if it has that prim |
| PrimSplitting.InnerPrimIsLost | source/core/src/Utils.cpp:1020-1027 | a layer with two nested prims, of which the inner one is lost |
| DeepTransform.InsertComposition | source/operations/deduplicateGeometry/DeduplicateGeometry.cpp:1027-1048 | the loop inserts the transform once: before the first forward pivot, or at the end |
| DeepTransform.InsertedOnce | source/operations/deduplicateGeometry/DeduplicateGeometry.cpp:1027-1048 | that is before the first op that the order lists forward and inverted, or at the end |
| DeepTransform.ComposedWithoutPivots | source/operations/deduplicateGeometry/DeduplicateGeometry.cpp:1023-1048 | without pivots the prototype's points land where the duplicate's were |
| DeepTransform.AroundPassesIff | source/operations/deduplicateGeometry/DeduplicateGeometry.cpp:1088-1134 | around a pivot a part of the transform passes with the remapped pivot if and only if the part with one translation less passes the ops inside |
| DeepTransform.SlidesIff | source/operations/deduplicateGeometry/DeduplicateGeometry.cpp:1088-1134 | a transform can be pulled out through a pivot pair with the remapped pivot if and only if it commutes with the turning inside and fixes its translation |
| DeepTransform.ComposedAroundPivot | source/operations/deduplicateGeometry/DeduplicateGeometry.cpp:1027-1134 | with one pivot pair closing the stack the placement is preserved if that holds, and only if where the ops before the pair can be undone |
| DeepTransform.ComposedAroundPivots | source/operations/deduplicateGeometry/DeduplicateGeometry.cpp:1027-1134 | with pivot pairs and plain ops in any mix and nesting the placement is preserved if the transform passes every piece |
| DeepTransform.PairPassesIff | source/operations/deduplicateGeometry/DeduplicateGeometry.cpp:1088-1134 | for a pair around plain ops, passing it is sliding past these |
| DeepTransform.ComposedBeforePlainOps | source/operations/deduplicateGeometry/DeduplicateGeometry.cpp:1027-1134 | with ops after everything it passes, the placement is preserved if and only if it commutes with them |
| DeepTransform.QuarterTurnsClash | source/operations/deduplicateGeometry/DeduplicateGeometry.cpp:1088-1134 | two quarter turns that do not slide past each other |
| DeepTransform.PlacementCanChange | source/operations/deduplicateGeometry/DeduplicateGeometry.cpp:1027-1134 | a concrete op stack with one pivot pair whose points move |
| PointInstancing.FindSource | source/operations/deduplicateGeometry/DeduplicateGeometry.cpp:1422-1446 | the prototype source is the first mesh whose own placement can be represented |
| PointInstancing.CreatePointInstancer | source/operations/deduplicateGeometry/DeduplicateGeometry.cpp:1335-1543 | a set is left alone below the minimum before or after filtering; otherwise all arrays have one entry per deleted mesh, the source is among them, and exactly the representable meshes are deleted |
| PointInstancing.ChosenAre | source/operations/deduplicateGeometry/DeduplicateGeometry.cpp:1422-1505 | the meshes replaced are exactly those in whose place the first mesh that can be represented fits, in order, or none if they are fewer than the minimum |
| PointInstancing.NoneChosen | source/operations/deduplicateGeometry/DeduplicateGeometry.cpp:1422-1446 | without such a mesh none is replaced |
| PointInstancing.InstanceKeepsCloud | source/operations/deduplicateGeometry/DeduplicateGeometry.cpp:1448-1497 | every instance places the prototype's points at the world positions of the mesh it replaces |
| PointInstancing.ReplaceSet | source/operations/deduplicateGeometry/DeduplicateGeometry.cpp:1335-1543 | the stage shows the same point clouds as before, each as often |
| MeshPipeline.StepKeeps | source/core/src/OmniOperation.cpp:81-263 | every step keeps: each index claimed once, each result in flight, queued or drained once, results and contents those of the sequential program |
| MeshPipeline.StageWrittenOnMainThread | source/core/src/OmniOperation.cpp:91-121 | in every run, when a step changes the stage, the last to come to the output filter was the main thread, or the destructor after the pipeline had ended |
| MeshPipeline.PipelineIsSequential | source/core/src/OmniOperation.cpp:178-268 | after the flush of any run: totals, contents and deletions are the sequential ones, and deletions follow all writes |
| PipelineOutcome.PrimAfterRun | source/core/src/OmniOperation.cpp:134-160 | after every finished run a prim is gone if and only if its result, to be written, is mesh data without vertices; any other result to be written has been written over it, once; all other prims are as they were |
| PipelineOutcome.TotalsMeasureTheStage | source/core/src/OmniOperation.h:62-93 | the totals before are what is measured on the original prims that have a result, those after what the written results report; where writing leaves what is reported, they are what is measured on the final stage |
| PipelineOutcome.QueueIsDrained | source/core/src/OmniOperation.cpp:123-167 | emptying the queue marks exactly the prims with mesh data without vertices to be written, writes over those queued once and leaves the rest |
| MeshPipeline.MarkedExactly | source/core/src/OmniOperation.cpp:138-144 | a prim is marked for deletion exactly when a drained result says so |
| MeshPipeline.WrittenExactly | source/core/src/OmniOperation.cpp:138-160 | the write events name exactly the results to be written |
| MeshPipeline.RunsEnd | source/core/src/OmniOperation.cpp:221-258 | no run is longer than the work at its start |
| MeshPipeline.NeverStuck | source/core/src/OmniOperation.cpp:221-263 | a run that has not finished can go on |
| MeshPipeline.OutputFilter.Accept | source/core/src/OmniOperation.cpp:103-121 | a result is queued, and the queue emptied only on the main thread |
| MeshPipeline.OutputFilter.WriteQueued | source/core/src/OmniOperation.cpp:123-167 | the loop empties the queue from the front, counting, writing and marking |
| MeshPipeline.OutputFilter.Finish | source/core/src/OmniOperation.cpp:91-101 | the destructor flushes and then deletes what was marked |
| MeshPipeline.DrainAllIsRun | source/core/src/OmniOperation.cpp:123-167 | what the object does in one call is a run of single drain steps |
| Coalescing.Coalescer.Trigger | source/core/src/Coalescer.cpp:32-58 | a trigger renews the timestamp and schedules only if no timer is active; nothing after a cancel |
| Coalescing.Coalescer.ExecuteCallback | source/core/src/Coalescer.cpp:90-131 | a waking timer stops, launches or is rescheduled for the remaining delay |
| Coalescing.Remaining | source/core/src/Coalescer.cpp:118-129 | the truncated remainder is positive, never too short and less than a millisecond too long |
| Coalescing.EveryRun | source/core/src/Coalescer.cpp:32-131 | in every run the flag holds exactly while one timer is outstanding; every launch answers a trigger, comes at least the delay after the last one and not after a cancel; no pending trigger is without its timer |
| CoalescerHistory.LaunchesAreDue | source/core/src/Coalescer.cpp:104-116 | in every run a launch comes at least the delay in milliseconds after every trigger before it, with a trigger since the last launch and no cancel before |
| CoalescerHistory.TriggersAreRecorded | source/core/src/Coalescer.cpp:32-58 | exactly the triggers before a cancel count, each once and at its time |
| CoalescerHistory.WaitsAreKept | source/core/src/Coalescer.cpp:75-87 | every wait that was begun has returned once or its thread is still waiting |
| Coalescing.WaitReturnsWithoutTimers | source/core/src/Coalescer.cpp:75-87 | a wait ends only when no timer is outstanding |
| Coalescing.PlannedTimerFires | source/core/src/Coalescer.cpp:104-131 | a timer planned from the latest trigger launches at its next wake, rescheduled ones included |
| Coalescing.OtherwiseReplanned | source/core/src/Coalescer.cpp:117-130 | any other timer is replaced by one that is neither early nor a millisecond late |
| Coalescing.TwoWakesFire | source/core/src/Coalescer.cpp:90-131 | once triggers stop, two wakes at most launch the callback |
| Coalescing.CancelledWakeStops | source/core/src/Coalescer.cpp:94-102 | after a cancel the next wake ends the last timer for good |
| Coalescing.NobodyForgottenIff | source/core/src/Coalescer.cpp:75-116 | a step leaves a blocked waiter without a timer if and only if it ends the timer while two are blocked |
| Coalescing.NeverForgottenIff | source/core/src/Coalescer.cpp:75-131 | over a whole run nobody is left so if and only if no timer ends while two are blocked |
| Coalescing.OneWaiterIsSafe | source/core/src/Coalescer.cpp:75-131 | in every run in which only one thread waits, nobody is left so |
| Coalescing.SecondWaiterIsForgotten | source/core/src/Coalescer.cpp:75-116 | a run of two waiters that leaves the second blocked |
| Coalescing.ForgottenStaysForgotten | source/core/src/Coalescer.cpp:75-116 | after a cancel nothing but a spurious wake-up frees that waiter |
| SceneCounters.CountPrim | source/core/src/Stats.cpp:337-512 | the increments of one task add the prim's own contribution, and set the sizes of the primvars it has |
| KeyedSums.AddEntries | source/core/src/Stats.cpp:150-172 | adding maps entry by entry, in whatever order, is their sum |
| SceneCounters.AddStats | source/core/src/Stats.cpp:108-175 | the operator computes the sum of two threads' counters |
| SceneCounters.PrimvarMonoid | source/core/src/Stats.cpp:120-132 | primvar counters add up in any grouping, and commute exactly when their sizes are equal or one is zero |
| SceneCounters.CountersPlus | source/core/src/Stats.cpp:108-175 | all counters but these sizes add up in any order and grouping |
| SceneStats.EveryScheduleCounts | source/core/src/Stats.cpp:308-515 | for every schedule of tasks over any number of threads, combined in any order, all counters but these sizes are the recursive count |
| SceneStats.CollectStats | source/core/src/Stats.cpp:268-522 | the worklist runs dry, and the result is the outcome of the turns taken, with those counters |
| StatsMeaning.StatsAreCounts | source/core/src/Stats.cpp:308-515 | for every schedule each total, each entry of a type and each primvar tally is a count or sum over all prims of the scene |
| PrimvarSizes.SizesReported | source/core/src/Stats.cpp:120-132 | the sizes some schedule reports for a primvar are exactly those that are not zero and those of the lowest prims that have it |
| StatsMeaning.OwnSizeIs | source/core/src/Stats.cpp:463-478 | the size a prim gives a primvar is that of its last one of the name, if the prim is defined and has one |
| PrimvarSizes.SizeIndependentIff | source/core/src/Stats.cpp:466-515 | every schedule reports the size of the recursive count if and only if these are all the same |
| PrimvarSizes.StatsIndependentIff | source/core/src/Stats.cpp:268-522 | all schedules give equal counters if and only if this holds for every primvar |
| PrimvarSizes.SizesCanDiffer | source/core/src/Stats.cpp:477 | two prims, and two schedules that report different sizes |
| SceneStats.CountIsRight | source/core/src/Stats.cpp:315-373 | exactly those imageable prims count as invisible that have themselves or some imageable prim above authored invisible |
| ReportLog.NothingLost | source/core/src/Report.cpp:63-138 | in every run, written, in hand and queued messages make up the log in order; after the writer has gone only messages logged since then are missing |
| ReportLog.WriterExits | source/core/src/Report.cpp:33-96 | in every run after shutdown the writer has exited after at most two of its own steps, with everything written that had been logged |
| UniqueNames.DecimalInjective | source/core/src/Utils.cpp:313-316 | different counters give different suffixes |
| UniqueNames.DecimalWrites | source/core/src/Utils.cpp:313-316 | the suffix is the number in decimal digits without leading zero |
| UniqueNames.FirstFree | source/core/src/Utils.cpp:303-317 | probing ends, at the least suffix whose name is not reserved |
| UniqueNames.NamesAreUnique | source/core/src/Utils.cpp:271-321 | the names are new, pairwise distinct, and each has the least suffix free at its turn |
| UniqueNames.NamesAreNumbered | source/core/src/Utils.cpp:271-321 | every name is new, and the first of the preferred name and this with an underscore and 1, 2, 3, ... that is not taken |
| UniqueNames.FindName | source/core/src/Utils.cpp:293-317 | starting at the remembered counter finds the name that probing from the start finds |
| UniqueNames.UniqueChildNames | source/core/src/Utils.cpp:271-321 | the bulk version with remembered counters returns the names of plain probing |
| ArgumentGroups.PositionedAfterIff | source/core/src/Operation.cpp:847-864 | the argument comes directly after the other one if and only if it was on its left, and directly before it otherwise |
| ArgumentGroups.MovedToEnd | source/core/src/Operation.h:240-258 | positioning arguments one after another behind the last one moves them to the end in that order |
| ArgumentGroups.ArgumentList.Position | source/core/src/Operation.cpp:847-864 | the two searches and the rotation compute the specified list |
| ArgumentGroups.ArgumentList.AddGroup | source/core/src/Operation.h:228-261 | whatever order the members were added in, the other arguments keep theirs and the group follows with its members as declared; every argument it moves comes from the left of its anchor |
| ArgumentGroups.GroupInPreorderIff | source/core/src/Operation.h:250-258 | that is the declared preorder if and only if joins are nested at most one level |
| PrimResolution.LookAt | source/core/src/ResolveSdfPaths.cpp:200-265 | one turn of the iterator takes what it should and leaves the rest of the traversal to do |
| PrimResolution.Resolve | source/core/src/ResolveSdfPaths.cpp:170-274 | the loop, with the reversal where asked for, computes the pruned traversal, and ends |
| PrimResolution.FoundIff | source/core/src/ResolveSdfPaths.cpp:200-265 | a prim is found if and only if it matches the expressions and the filter, is a mesh where only these are wanted, is not the root or under a reserved name, and nothing on the way down blocks |
| PrimResolution.FoundInOrder | source/core/src/ResolveSdfPaths.cpp:200-265 | what is found comes in the order of the full traversal |
| PrimResolution.FoundIsFiltered | source/core/src/ResolveSdfPaths.cpp:170-274 | the pruned traversal is the full preorder filtered by the selection and by nothing blocking on the way down |
| PrimResolution.PruningIsChecking | source/core/src/ResolveSdfPaths.cpp:33-93 | for every query, pruning reaches a prim and nothing above the start blocks if and only if the check of every ancestor accepts it and all prims on the way are visited and, for meshes, no material |
| PrimResolution.PruningAgreesIff | source/core/src/ResolveSdfPaths.cpp:33-93 | for every selected prim of a stage both ways agree if and only if no selected prim the check accepts is at or below one not visited or, for meshes, a material |
| PrimResolution.ResolvedIsCheckedIff | source/core/src/ResolveSdfPaths.cpp:170-274 | the list a whole stage resolves to is the preorder filtered by the selection and the ancestor check if and only if that holds |
| PrimResolution.MeshUnderMaterial | source/core/src/ResolveSdfPaths.cpp:228-236 | a stage with a mesh below a material, found by the check only |
| PrimResolution.ReversedIsLeavesFirst | source/core/src/ResolveSdfPaths.cpp:267-271 | reversed, every prim comes before all prims above it |
| PrimRemoval.RemoveIsPrune | source/core/src/RemovePrims.cpp:113-136 | filtering the child list of one parent, gone or not, prunes the tree by exactly those children |
| PrimRemoval.Layer.DeletePrims | source/core/src/RemovePrims.cpp:27-138 | the batched deletion gives the pruned tree for nested and repeated inputs and any order of parents |
| PrimRemoval.OneByOneIsPruned | source/core/src/RemovePrims.cpp:27-138 | deleting one prim at a time in any order gives the same tree |
| PrimRemoval.SurvivesIff | source/core/src/RemovePrims.cpp:108-137 | a prim is left if and only if neither it nor anything above it was to be deleted, with its remaining children in order |
| ConfigRunners.MapOperation | source/core/src/Core.cpp:564-604 | the loop over the sorted keys computes the renamed arguments |
| ConfigMeaning.MapKeysRight | source/core/src/Core.cpp:564-604 | every argument is under its new name with its value, the operation under its own name, and nothing else is there; of arguments renamed to the same the last counts |
| ConfigRunners.MappingTwice | source/core/src/Operation.cpp:671 | mapping a second time changes nothing when the renames are settled |
| ConfigRunners.MappingTwiceIff | source/core/src/Operation.cpp:671 | it changes nothing for any object if and only if no rename target is itself renamed to something else, or the key of the operation's name |
| ConfigRunners.ChainMovesOn | source/core/src/Core.cpp:564-604 | a chain of two renames, and an object that moves on |
| ConfigRunners.ExecuteConfig | source/core/src/Core.cpp:667-761 | the first runner computes the strict run, succeeds exactly if all its results do, and hands the report back |
| ConfigRunners.ParseConfig | source/core/src/ParseJson.cpp:79-226 | the second runner computes the lenient run, and hands the report back unless an entry was malformed |
| ConfigMeaning.RunMeans | source/core/src/Core.cpp:667-761 | a run executes exactly the calls among the entries it gets to, in order, each with the operation of its own or new name, the arguments renamed for it and every option as last set; it stops at the end, at the first malformed entry, at a failure or, if strict, at the first name that is nothing |
| ConfigRunners.RunnersAgree | source/core/src/ParseJson.cpp:115-200 | when every name resolves both execute the same calls, stop at the same entry and agree on success |
| ConfigRunners.RunnersAgreeWhen | source/core/src/ParseJson.cpp:115-200 | a configuration that agrees has the same effects in both runners, and one that does not has other effects when no operation fails |
| ConfigRunners.RunnersAgreeIff | source/core/src/ParseJson.cpp:115-200 | the effects are the same whatever the operations do if and only if the configuration agrees: no unknown name is met, or only skipped entries and then a malformed one follow |
| ConfigRunners.ReportHandedBackIff | source/core/src/ParseJson.cpp:79-226 | the second runner gets to hand the report back whatever the operations do if and only if no entry is malformed |

## Left out

- Structural keys are compared as the sequences they hash, so collisions of the 64-bit hash are not modelled; the value
  fingerprint is any function of the participating attributes, sorted and hashed by an arbitrary mixer.
- Relationship targets, connections, time samples and metadata: the deduplication never compares them, so the trees have
  names, types and default-valued attributes only.
- HierarchySearch.FindDuplicates: starting prims must be distinct and unrelated; nested or repeated user paths and the
  resolution of the starting prims are not modelled. The same holds of HierarchySearch.SearchIsSound and
  HierarchyMeaning.Deduplicate, whose stage has no internal references before.
- HierarchyReferences.ReplaceDuplicate: the instanceable flag, deactivation of children that cannot be removed, and
  references that fail to author are not modelled, nor in HierarchyReferences.ReplaceDuplicates and
  HierarchyReferences.ApplyInternalReferences.
- XformStack.ValueConverts: decomposing a rotation into angles or a quaternion and factoring a scale are taken to be
  exact, so three-axis rotations are their matrices and scale factors are positive.
- XformConversion.PerOpConverts: inverse and time-sampled single-axis rotations are excluded, and all ops of a prim are
  authored in the one layer that is edited.
- StageMetrics.StageConverts: shapes that get an up axis correction are leaves; prims are concrete in the edited layer;
  viewport cameras, physics limits, attributes other than points, extents and ops are not modelled.
- DeepTransform.ComposedAroundPivots: for several pieces passing each is only shown to suffice, because deviations of
  different pieces can cancel; pivots whose inverse comes first are not treated.
- UnitChange.PlacesKept: meters per unit are positive; of double arithmetic only the comparison with the distance from one
  to the next double is modelled.
- SplitPlacement.SplitPrims: the names of op attributes are any names in their namespace, and properties hold an order, the
  value of an op or something else.
- PivotOps.SplitKeepsPlacement: pivots are translations, as the program assumes when it copies them.
- PrimSplitting.SplitBatch: for batches in which some rename fails the final layer is not modelled; specs that only hold
  others, metadata and applied schemas are not recorded.
- PointInstancing.ReplaceSet: the native solver and decomposition are parameters assumed exact; materials, the choice of
  the parent and failures to define the instancer are not modelled.
- MeshPipeline.PipelineIsSequential: exceptions while writing, what the exporters write, and prims whose deletion takes
  others with them are not modelled; scheduling is any interleaving of the steps.
- Coalescing.EveryRun: the callback's own thread, after its launch, is not modelled.
- SceneStats.CollectStats: prototypes are left out; which interpolation a primvar has, and how many values are stored, are
  parameters of the prim, as are its hash and its number of disjoint parts.
- PrimResolution.Resolve: path expressions and filters are parameters, and a filter that prunes by itself is not modelled.
- PrimRemoval.Layer.DeletePrims: one layer of definitions; overs, other layers, deactivation and the default prim are
  left out.
- ConfigMeaning.RunMeans: operations may change the report they are given, not the options.
- ConfigRunners.RunnersAgree: reading the text, the stage cache and timers are left out.
- Rounding, NaN, memory management, command line, Python bindings, plugin loading, validators and documentation text.
