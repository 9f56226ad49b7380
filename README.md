# Loose quadtree, modelled in Dafny

This project models a loose quadtree. A loose quadtree is a spatial index over
axis-aligned bounding boxes. The index stores objects by identity. It answers three region
queries:

- objects intersecting a region;
- objects inside a region;
- objects containing a region.

The behaviour is the one fixed by the repository's test driver
`src/test/LooseQuadtreeTest.cpp`. The implementation header `LooseQuadtree.h` is not part
of this model. Every layer is therefore modelled to meet the assertions of the driver.

The model has six modules:

- **BoundingBoxes** (`BoundingBox.dfy`): the box datatype over half-open regions
  `[left, left+width) x [top, top+height)` and its three predicates (point containment,
  box containment, intersection), with their algebra.
- **TreeNodes** (`TreeNode.dfy`):
  - the quadrant split of a region (the left column and top row take `w/2` and `h/2`, the
    others `w - w/2` and `h - h/2`);
  - the loose region of a cell, doubled around it: `(l - w/2, t - h/2, 2w, 2h)`;
  - the tree of nodes as a value (four child slots and a local object list per node), with
    nodes addressed by their path of quadrants from the root;
  - the pure tree operations used by the container: insertion into a node list, removal,
    growth of a new root, and reclamation of empty nodes.
- **Traversals** (`Traversal.dfy`): `ForwardTreeTraversal` (node, region, depth;
  descend only) and `FullTreeTraversal` (an explicit stack of node, region and
  current-child frames; it can descend and go back up).
- **Queries** (`Query.dfy`): what a query yields. The scan is depth-first and skips every
  subtree whose loose region rules out a match. The module proves that the scan yields
  each stored object that satisfies the query exactly once, and nothing else.
- **QueryIterators** (`QueryIterator.dfy`): the lazy iterator (`EndOfQuery`,
  `GetCurrent`, `Next`) as a class over a `FullTreeTraversal`. Its ghost `Remaining()`
  is proved to be the rest of the scan's output after every step.
- **LooseQuadtrees** (`LooseQuadtree.dfy`): the container class. Its fields are the
  root, the root region, the stored boxes, an identity-to-node lookup and a size counter.
  The class invariant says:
  - the size counter equals the number of stored boxes;
  - the lookup has exactly the stored identities as keys;
  - the root region is at least 2 by 2;
  - every stored box is well formed (no negative width or height);
  - every stored object occurs in exactly one node list, the one the lookup names;
  - nothing else occurs in the tree;
  - every object lies inside the loose region of its node;
  - the root region encloses every stored box.
  Insert, Remove, Update, Clear, ForceCleanup and the three query constructors keep this
  invariant.
- **ContainerScenarios** (`Scenarios.dfy`): parts of `TestInsertRemove`, `TestUpdate`
  and `TestMoreTrees`, replayed from the container's contracts alone.

Three scenario methods replay the traversal tests of the driver from the traversal
contracts: `Traversals.ForwardTraversalScenario`, `Traversals.FullTraversalScenario` and
`Traversals.SplitScenario`.

Coordinates are unbounded integers. A box is well formed when its width and height are
both at least 0.

## Model

| member | source | states |
|---|---|---|
| BoundingBoxes.ContainsReflexive | src/test/LooseQuadtreeTest.cpp:45 | every box contains itself |
| BoundingBoxes.ContainsTransitive | src/test/LooseQuadtreeTest.cpp:45-58 | box containment is transitive |
| BoundingBoxes.ContainsAntisymmetric | src/test/LooseQuadtreeTest.cpp:46-49 | two boxes that contain each other are equal, so a strictly smaller box never contains the bigger one |
| BoundingBoxes.PointCorners | src/test/LooseQuadtreeTest.cpp:42-43 | the point test is half-open: the near corner is in, the far corner is out, the last cell before it is in |
| BoundingBoxes.IntersectsSymmetric | src/test/LooseQuadtreeTest.cpp:60-73 | `a` intersects `b` iff `b` intersects `a` |
| BoundingBoxes.IntersectsReflexive | src/test/LooseQuadtreeTest.cpp:60 | a well-formed box intersects itself iff both its extents are positive |
| BoundingBoxes.ContainsImpliesIntersects | src/test/LooseQuadtreeTest.cpp:61-64 | a box containing a non-empty box intersects it, both ways |
| BoundingBoxes.TouchingDoesNotIntersect | src/test/LooseQuadtreeTest.cpp:65-66 | boxes that only share an edge or a corner do not intersect, in either order |
| BoundingBoxes.ContainsByPoints | src/test/LooseQuadtreeTest.cpp:42-58 | for a non-empty inner box, box containment holds iff every point of the inner box is in the outer one |
| BoundingBoxes.IntersectsByPoints | src/test/LooseQuadtreeTest.cpp:60-73 | for non-empty boxes, intersection holds iff the two share a point |
| BoundingBoxes.IntersectsMonotone | src/test/LooseQuadtreeTest.cpp:60-73 | a box containing a box that meets `q` meets `q` too |
| BoundingBoxes.BoundingBoxScenario | src/test/LooseQuadtreeTest.cpp:34-73 | every assertion of TestBoundingBox over its seven boxes |
| TreeNodes.SplitLaw | src/test/LooseQuadtreeTest.cpp:197-215 | the four child regions tile the parent: the widths and heights add up to the parent's, siblings in a row share a height and siblings in a column share a width, and the right and bottom children start where the left and top ones end |
| TreeNodes.ChildInside | src/test/LooseQuadtreeTest.cpp:91-132 | every child region is well formed and inside its parent region |
| TreeNodes.PointInExactlyOneQuadrant | src/test/LooseQuadtreeTest.cpp:91-132 | a point of a region lies in exactly one child region |
| TreeNodes.QuadrantsDisjoint | src/test/LooseQuadtreeTest.cpp:197-215 | distinct child regions do not intersect |
| TreeNodes.LooseCoversTight | src/test/LooseQuadtreeTest.cpp:243-244 | the loose region contains the tight one and reaches strictly past its far edges |
| TreeNodes.LooseNested | src/test/LooseQuadtreeTest.cpp:243-244 | a child's loose region lies inside its parent's loose region, so the loose root region returned by GetLooseBoundingBox holds every loose region below it |
| TreeNodes.RegionAtSnoc | src/test/LooseQuadtreeTest.cpp:98-118 | the region at a path extended by one step is the child region of the region at the path |
| TreeNodes.Child | src/test/LooseQuadtreeTest.cpp:87-90 | a child slot of a node is strictly smaller than the node |
| TreeNodes.WithChild | src/test/LooseQuadtreeTest.cpp:87-90 | relinking one child slot changes that slot only and keeps the node's own list |
| TreeNodes.TwoListsInTree | src/test/LooseQuadtreeTest.cpp:238-300 | the copies of an object in two distinct node lists together never exceed its copies in the tree |
| TreeNodes.OneListInTree | src/test/LooseQuadtreeTest.cpp:238-300 | the copies of an object in one node list never exceed its copies in the tree |
| TreeNodes.InsertAtIds | src/test/LooseQuadtreeTest.cpp:238-240 | inserting into a node list adds exactly one copy of the object to the tree and nothing else |
| TreeNodes.InsertAtObjects | src/test/LooseQuadtreeTest.cpp:238-240 | inserting at a path appends the object to that node's list and leaves every other list unchanged |
| TreeNodes.Without | src/test/LooseQuadtreeTest.cpp:245-248 | removing an object from a list drops all its copies and keeps every other element |
| TreeNodes.RemoveFromIds | src/test/LooseQuadtreeTest.cpp:245-248 | removing at a path takes the object's copies in that list out of the tree and changes nothing else |
| TreeNodes.RemoveFromObjects | src/test/LooseQuadtreeTest.cpp:245-248 | removing at a path changes that node's list only |
| TreeNodes.PlacedWithin | src/test/LooseQuadtreeTest.cpp:243-244 | an object in a correctly placed subtree lies inside the loose region of the subtree's root |
| TreeNodes.PlacedInsertAt | src/test/LooseQuadtreeTest.cpp:238-240 | inserting at a node whose loose region contains the box keeps every object inside its node's loose region |
| TreeNodes.PlacedRemoveFrom | src/test/LooseQuadtreeTest.cpp:245-248 | removal keeps every object inside its node's loose region |
| TreeNodes.PlacedFrame | src/test/LooseQuadtreeTest.cpp:325-350 | placement depends only on the boxes of the objects in the subtree |
| TreeNodes.Grow | src/test/LooseQuadtreeTest.cpp:318-323 | a new root holds the old root in the chosen quadrant and has an empty own list |
| TreeNodes.GrowIds | src/test/LooseQuadtreeTest.cpp:318-323 | growing the root changes no object's count |
| TreeNodes.GrowObjects | src/test/LooseQuadtreeTest.cpp:318-323 | after growth, the node at `[q] + p` holds what the node at `p` held |
| TreeNodes.GrowPlaced | src/test/LooseQuadtreeTest.cpp:318-323 | growth keeps every object inside its node's loose region |
| TreeNodes.Cleanup | src/test/LooseQuadtreeTest.cpp:233 | after cleanup no node is left that has neither objects nor children |
| TreeNodes.CleanupObjects | src/test/LooseQuadtreeTest.cpp:233-300 | cleanup keeps every node list at every path |
| TreeNodes.CleanupIds | src/test/LooseQuadtreeTest.cpp:233-300 | cleanup changes no object's count |
| TreeNodes.CleanupPlaced | src/test/LooseQuadtreeTest.cpp:233-300 | cleanup keeps every object inside its node's loose region |
| Traversals.ForwardTreeTraversal.StartAt | src/test/LooseQuadtreeTest.cpp:91-97 | the traversal starts at the root with the root region and depth 0 |
| Traversals.ForwardTreeTraversal.GoTo | src/test/LooseQuadtreeTest.cpp:98-118 | one step down moves to the child, splits the region and adds 1 to the depth |
| Traversals.FullTreeTraversal.StartAt | src/test/LooseQuadtreeTest.cpp:148-151 | the stack is the root frame alone, positioned at the node itself, and the depth is 0 |
| Traversals.FullTreeTraversal.GoTo | src/test/LooseQuadtreeTest.cpp:152-167 | descent marks the level left behind with the quadrant taken and pushes the child frame positioned at itself; the depth grows by 1 |
| Traversals.FullTreeTraversal.GoUp | src/test/LooseQuadtreeTest.cpp:168-183 | ascent pops the top frame; the new top is the parent, positioned at the quadrant just left, whose child and child region are the frame popped |
| Traversals.ForwardTraversalScenario | src/test/LooseQuadtreeTest.cpp:79-133 | every assertion of TestForwardTreeTraversal |
| Traversals.FullTraversalScenario | src/test/LooseQuadtreeTest.cpp:136-184 | every assertion of TestFullTreeTraversal |
| Traversals.SplitScenario | src/test/LooseQuadtreeTest.cpp:187-216 | every assertion of TestBoundingBoxDiscrepancy |
| Queries.PruneSound | src/test/LooseQuadtreeTest.cpp:649-689 | a subtree whose loose region holds a matching object is never skipped |
| Queries.InsideWithoutIntersection | src/test/LooseQuadtreeTest.cpp:663-675 | an empty box on the far corner of a query region is inside it while its loose region does not intersect the query region, so the inside query cannot prune on intersection |
| Queries.Filter | src/test/LooseQuadtreeTest.cpp:649-689 | the per-node filter keeps exactly the matching copies of a node list |
| Queries.After | src/test/LooseQuadtreeTest.cpp:649-689 | a query visits the children of a node in the order top-left, top-right, bottom-right, bottom-left, each position after the previous one; no driver line fixes this order, it is the model's choice, and the query results do not depend on it |
| Queries.NextChild | src/test/LooseQuadtreeTest.cpp:649-689 | the next child the scan enters comes later in that order and is present and not pruned |
| Queries.NextChildSplits | src/test/LooseQuadtreeTest.cpp:649-689 | the output after a position is the output of the next entered child followed by the output after that child |
| Queries.SkipInvisible | src/test/LooseQuadtreeTest.cpp:649-689 | a pruned child contributes nothing to the output |
| Queries.WeightAfterSplits | src/test/LooseQuadtreeTest.cpp:649-689 | entering the next child leaves strictly less of the node to scan |
| Queries.OutSound | src/test/LooseQuadtreeTest.cpp:649-689 | a subtree's output holds no object that fails the query, and no object more often than the subtree does |
| Queries.ChildrenAfterSound | src/test/LooseQuadtreeTest.cpp:649-689 | the same soundness for the children after a position |
| Queries.OutComplete | src/test/LooseQuadtreeTest.cpp:649-689 | in a correctly placed subtree, every stored object that matches is in the output |
| Queries.ChildrenAfterComplete | src/test/LooseQuadtreeTest.cpp:649-689 | the same completeness for the children after a position |
| Queries.QueryExact | src/test/LooseQuadtreeTest.cpp:649-689 | when no object occurs twice, a query yields each matching stored object exactly once and nothing else |
| Queries.CleanupOut | src/test/LooseQuadtreeTest.cpp:233-300 | cleanup leaves a subtree's query output unchanged |
| Queries.CleanupChildrenAfter | src/test/LooseQuadtreeTest.cpp:233-300 | cleanup leaves the output after any position unchanged |
| Queries.CleanupContribution | src/test/LooseQuadtreeTest.cpp:233-300 | cleanup leaves each child's contribution unchanged |
| Queries.QueryOutCleanup | src/test/LooseQuadtreeTest.cpp:692 | every query yields the same sequence before and after cleanup |
| QueryIterators.YieldStep | src/test/LooseQuadtreeTest.cpp:460-465 | at a matching object, the pending output is that object followed by the pending output from the next index |
| QueryIterators.SkipStep | src/test/LooseQuadtreeTest.cpp:460-465 | stepping past a non-matching object keeps the pending output and reduces the work left |
| QueryIterators.DescendPending | src/test/LooseQuadtreeTest.cpp:460-465 | descending into the next entered child keeps the pending output |
| QueryIterators.DescendWork | src/test/LooseQuadtreeTest.cpp:460-465 | descending reduces the work left |
| QueryIterators.AscendStep | src/test/LooseQuadtreeTest.cpp:460-465 | going up from an exhausted node keeps the pending output and reduces the work left |
| QueryIterators.FinishStep | src/test/LooseQuadtreeTest.cpp:455-456 | an exhausted root leaves nothing pending |
| QueryIterators.DescendValid | src/test/LooseQuadtreeTest.cpp:460-465 | descent keeps the iterator's stack linked |
| QueryIterators.AscendValid | src/test/LooseQuadtreeTest.cpp:460-465 | ascent keeps the iterator's stack linked |
| QueryIterators.QueryIterator.constructor | src/test/LooseQuadtreeTest.cpp:455 | a new iterator is positioned at its first match, and its remaining output is the query's whole output |
| QueryIterators.QueryIterator.EndOfQuery | src/test/LooseQuadtreeTest.cpp:455-466 | the query has ended iff nothing remains |
| QueryIterators.QueryIterator.GetCurrent | src/test/LooseQuadtreeTest.cpp:649-652 | the current object is the first of the remaining output, and it is stored and satisfies the query |
| QueryIterators.QueryIterator.Next | src/test/LooseQuadtreeTest.cpp:460-465 | the remaining output loses exactly its first element and the iterator is positioned again |
| QueryIterators.QueryIterator.MovePast | src/test/LooseQuadtreeTest.cpp:460-465 | moving past the current object removes it from the front of the remaining output |
| QueryIterators.QueryIterator.Advance | src/test/LooseQuadtreeTest.cpp:460-465 | searching for the next match changes nothing in the remaining output and ends positioned |
| QueryIterators.QueryIterator.Step | src/test/LooseQuadtreeTest.cpp:460-465 | one search step keeps the remaining output and, unless the search ends, reduces the work left |
| QueryIterators.QueryIterator.Skip | src/test/LooseQuadtreeTest.cpp:460-465 | skipping a non-matching object keeps the remaining output |
| QueryIterators.QueryIterator.Descend | src/test/LooseQuadtreeTest.cpp:460-465 | descending keeps the remaining output and reduces the work left |
| QueryIterators.QueryIterator.Ascend | src/test/LooseQuadtreeTest.cpp:460-465 | ascending keeps the remaining output |
| LooseQuadtrees.ExactlyOneNode | src/test/LooseQuadtreeTest.cpp:238-300 | an object is in a node list iff it is stored and the lookup names that node |
| LooseQuadtrees.TreeHoldsStored | src/test/LooseQuadtreeTest.cpp:233-300 | the objects in the tree are exactly the stored ones, and their number is the size |
| LooseQuadtrees.NilStoresNothing | src/test/LooseQuadtreeTest.cpp:233-236 | a container without a root stores nothing |
| LooseQuadtrees.InsertPreserves | src/test/LooseQuadtreeTest.cpp:238-244 | inserting a new object at a node whose loose region contains its box keeps the invariant |
| LooseQuadtrees.RemovePreserves | src/test/LooseQuadtreeTest.cpp:245-248 | removing a stored object from the node the lookup names keeps the invariant |
| LooseQuadtrees.GrowPreserves | src/test/LooseQuadtreeTest.cpp:318-323 | growing the root into a doubled region keeps the invariant |
| LooseQuadtrees.CleanupPreserves | src/test/LooseQuadtreeTest.cpp:233-300 | cleanup keeps the invariant |
| LooseQuadtrees.StoredQueryExact | src/test/LooseQuadtreeTest.cpp:649-689 | on a valid container, each query yields each matching stored object exactly once and nothing else |
| LooseQuadtrees.Deficit | src/test/LooseQuadtreeTest.cpp:318-323 | the growth measure is 0 iff the region contains the box |
| LooseQuadtrees.Doubled | src/test/LooseQuadtreeTest.cpp:318-323 | the doubled region is well formed, and the old region is the child of the doubled one in the growth quadrant |
| LooseQuadtrees.GrowthProgress | src/test/LooseQuadtreeTest.cpp:318-323 | each doubling strictly reduces the growth measure, so growth ends |
| LooseQuadtrees.InitialRegion | src/test/LooseQuadtreeTest.cpp:238-244 | the first root region encloses the first box, is at least 2 x 2, and its loose region reaches past the box on both sides |
| LooseQuadtrees.LooseQuadtree.constructor | src/test/LooseQuadtreeTest.cpp:231-236 | a new container is valid and empty |
| LooseQuadtrees.LooseQuadtree.Contains | src/test/LooseQuadtreeTest.cpp:236-300 | membership iff the object is stored, iff it occurs in the tree |
| LooseQuadtrees.LooseQuadtree.GetSize | src/test/LooseQuadtreeTest.cpp:235-300 | the size is the number of stored objects and of objects in the tree |
| LooseQuadtrees.LooseQuadtree.IsEmpty | src/test/LooseQuadtreeTest.cpp:234-248 | empty iff nothing is stored, iff the tree holds no object |
| LooseQuadtrees.LooseQuadtree.GetLooseBoundingBox | src/test/LooseQuadtreeTest.cpp:243-244 | on a non-empty container the loose root region contains every stored box, meets it, and is contained by none |
| LooseQuadtrees.LooseQuadtree.Insert | src/test/LooseQuadtreeTest.cpp:238-265 | a new object is stored with its box; inserting a stored object changes nothing; the invariant holds after |
| LooseQuadtrees.LooseQuadtree.Cover | src/test/LooseQuadtreeTest.cpp:318-323 | root growth makes the root region enclose the box and keeps the stored set and the invariant |
| LooseQuadtrees.LooseQuadtree.Place | src/test/LooseQuadtreeTest.cpp:238-244 | the chosen node's loose region contains the box, at most MaxDepth levels down, and the descent stops only where the next quadrant's loose region would not contain the box |
| LooseQuadtrees.LooseQuadtree.Remove | src/test/LooseQuadtreeTest.cpp:245-300 | the object is no longer stored and nothing else changes; removing an absent object changes nothing |
| LooseQuadtrees.LooseQuadtree.Update | src/test/LooseQuadtreeTest.cpp:325-350 | a stored object takes its new box and stays stored; an absent object is not added |
| LooseQuadtrees.LooseQuadtree.Clear | src/test/LooseQuadtreeTest.cpp:409-417 | the container is valid and empty afterwards |
| LooseQuadtrees.LooseQuadtree.ForceCleanup | src/test/LooseQuadtreeTest.cpp:233-300 | the stored set, the lookup and the root region are unchanged, no reclaimable node is left, and every query yields the same sequence as before |
| LooseQuadtrees.LooseQuadtree.StartQuery | src/test/LooseQuadtreeTest.cpp:649-689 | a new iterator's remaining output is the scan's output, which holds each matching stored object exactly once |
| LooseQuadtrees.LooseQuadtree.QueryIntersectsRegion | src/test/LooseQuadtreeTest.cpp:649-661 | the iterator will yield exactly the stored objects whose box intersects the region, once each |
| LooseQuadtrees.LooseQuadtree.QueryInsideRegion | src/test/LooseQuadtreeTest.cpp:663-675 | the iterator will yield exactly the stored objects whose box lies inside the region, once each |
| LooseQuadtrees.LooseQuadtree.QueryContainsRegion | src/test/LooseQuadtreeTest.cpp:677-689 | the iterator will yield exactly the stored objects whose box contains the region, once each |
| LooseQuadtrees.Drain | src/test/LooseQuadtreeTest.cpp:649-657 | the query loop collects exactly the iterator's remaining output, in order |
| LooseQuadtrees.Take | src/test/LooseQuadtreeTest.cpp:651-656 | one loop turn reads the current object and drops it from the front of the remaining output |
| LooseQuadtrees.CollectQuery | src/test/LooseQuadtreeTest.cpp:645-689 | the objects collected by a query loop are exactly the stored objects satisfying the query, each once, so the flags match the filter |
| LooseQuadtrees.OracleAgrees | src/test/LooseQuadtreeTest.cpp:658-661 | an output holding each match exactly once agrees with the filter of the stored set, flag by flag, and has its size |
| LooseQuadtrees.OncePerMember | src/test/LooseQuadtreeTest.cpp:658-661 | a sequence holding each member of a set exactly once has the set's size |
| ContainerScenarios.MaybeCleanup | src/test/LooseQuadtreeTest.cpp:233 | the `reclaim_losses` switch never changes the stored set |
| ContainerScenarios.InsertRemoveFirst | src/test/LooseQuadtreeTest.cpp:227-249 | the assertions of TestInsertRemove up to its first removal, for both switch values |
| ContainerScenarios.UpdateOne | src/test/LooseQuadtreeTest.cpp:325-350 | after an update that moves an object, it is still the only stored object, and the loose root region meets it and is not contained by it |
| ContainerScenarios.ClearReuse | src/test/LooseQuadtreeTest.cpp:404-417 | a cleared container is empty and can be filled again |

## Left out

- `LooseQuadtree.h` is not part of this model. The placement rule, the initial root
  region and the growth direction are chosen here. They meet every assertion of the driver
  and the containment invariant. The query proofs hold for any placement that keeps each
  object inside its node's loose region.
- The initial root region is the first box widened by 1 on each side. No assertion fixes
  this margin.
- Root growth doubles both extents of the region at every step. On each axis the region
  grows towards the box. The old root keeps its absolute position. It becomes a right-hand
  quadrant when the box sticks out on the left, and a bottom quadrant when the box sticks
  out at the top.
- Placement stops at `MaxDepth` = 32 levels. Without some bound, descent into a region of
  width 1 would never end, because such a region splits into an empty and a full quadrant.
- Shrinking the root during cleanup is not modelled. While a root exists its region only
  grows; after Clear, or a cleanup that reclaims the root, the next Insert starts again
  from `InitialRegion(box)`.
- Cleanup is a recursive function on the tree, not a loop with a `FullTreeTraversal`. It
  reclaims every node that has no objects and no children.
- `BlocksAllocator` and its free list are not modelled. Nodes are values, and recycled
  memory is not observable.
- Node identity is a path of quadrants from the root, not a memory address. Objects are natural
  number identities instead of addresses.
- Update of a stored object is modelled as Remove followed by Insert. The shortcut that keeps an object in
  its node is not modelled, and its results are the same.
- `LooseQuadtrees.LooseQuadtree.GetLooseBoundingBox` returns the loose region of the root
  cell. The driver's assertions hold for it. They would not hold for the tight region on a
  box that fills the tight root cell.
- The inside query prunes a subtree only when its loose region does not even touch the
  query region (closed overlap). Intersection would lose an empty box lying on the query
  region's far corner; `Queries.InsideWithoutIntersection` gives the case.
- An iterator is not valid after the container changes. Queries take the tree at the time
  they start. Using an iterator after a mutation is outside the model.
- ContainerScenarios replays only parts of the container tests: the start of
  TestInsertRemove, one update from TestUpdate, and the cleared tree of TestMoreTrees.
  A longer replay costs the verifier too much, because each call brings in the whole class
  invariant. The remaining assertions follow from the contracts of Insert, Remove, Update,
  Contains, GetSize, IsEmpty and GetLooseBoundingBox for any stored set.
- The concrete query counts over the seven boxes of TestQueries are not replayed. They
  follow from `LooseQuadtrees.CollectQuery` and the box predicates.
- Timing, `printf` reporting, random stress generation, `float`/`double` coordinates and
  the ranges of fixed-width integer types are not modelled. Coordinates are unbounded
  integers.
- The extractor is not modelled. Each Insert or Update receives the object's box
  directly.
