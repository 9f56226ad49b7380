/** The container: a quadrant tree whose root region grows to cover what is
    inserted, an identity -> node lookup, and a size counter. Objects are
    known by identity; the box of each is the one its extractor reported at
    the last Insert or Update. */
module LooseQuadtrees {
  import opened BoundingBoxes
  import opened TreeNodes
  import opened Traversals
  import opened Queries
  import opened QueryIterators

  /** How many levels below the root insertion may descend. A cell of width
      or height 1 splits into an empty and a full quadrant forever, so some
      bound is needed for the descent to stop. */
  const MaxDepth: nat := 32

  // ---------------------------------------------------------------------------
  // The container invariant, on the container's state as plain values.

  /** Every stored identity occurs exactly once in the tree, nothing else occurs. */
  ghost predicate Counted(root: Tree, boxes: map<ObjectId, BoundingBox>)
  {
    forall x :: Ids(root)[x] == if x in boxes then 1 else 0
  }

  /** The lookup names a node whose list holds the object. */
  ghost predicate Located(root: Tree, located: map<ObjectId, seq<Quadrant>>)
  {
    forall x :: x in located ==> x in ObjectsAt(root, located[x])
  }

  /** Every stored box lies inside the tight root region. */
  ghost predicate Enclosed(region: BoundingBox, boxes: map<ObjectId, BoundingBox>)
  {
    forall x :: x in boxes ==> region.Contains(boxes[x])
  }

  ghost predicate Invariant(root: Tree, region: BoundingBox, boxes: map<ObjectId, BoundingBox>,
                            located: map<ObjectId, seq<Quadrant>>, size: nat)
  {
    && size == |boxes|
    && located.Keys == boxes.Keys
    && region.width >= 2 && region.height >= 2
    && BoxesWellFormed(boxes)
    && Enclosed(region, boxes)
    && Counted(root, boxes)
    && Located(root, located)
    && Placed(root, region, boxes)
  }

  /** Every stored object is in exactly one node list, the one the lookup
      names, and an object that is not stored is in none. */
  lemma ExactlyOneNode(root: Tree, region: BoundingBox, boxes: map<ObjectId, BoundingBox>,
                       located: map<ObjectId, seq<Quadrant>>, size: nat, x: ObjectId, p: seq<Quadrant>)
    requires Invariant(root, region, boxes, located, size)
    ensures x in ObjectsAt(root, p) <==> x in boxes && p == located[x]
  {
    assert Ids(root)[x] == if x in boxes then 1 else 0;
    if x in boxes && p != located[x] {
      TwoListsInTree(root, p, located[x], x);
      assert x in multiset(ObjectsAt(root, located[x]));
    } else {
      OneListInTree(root, p, x);
    }
  }

  /** The tree holds exactly the stored identities, so its reference count is the size. */
  lemma TreeHoldsStored(root: Tree, region: BoundingBox, boxes: map<ObjectId, BoundingBox>,
                        located: map<ObjectId, seq<Quadrant>>, size: nat)
    requires Invariant(root, region, boxes, located, size)
    ensures Ids(root) == multiset(boxes.Keys)
    ensures |Ids(root)| == size
  {
    forall x
      ensures Ids(root)[x] == multiset(boxes.Keys)[x]
    {
      assert Ids(root)[x] == if x in boxes then 1 else 0;
    }
    assert Ids(root) == multiset(boxes.Keys);
  }

  /** A container without a root stores nothing. */
  lemma NilStoresNothing(region: BoundingBox, boxes: map<ObjectId, BoundingBox>,
                         located: map<ObjectId, seq<Quadrant>>, size: nat)
    requires Invariant(Nil, region, boxes, located, size)
    ensures boxes == map[] && located == map[] && size == 0
  {
    forall x
      ensures x !in boxes
    {
      assert Ids(Nil)[x] == if x in boxes then 1 else 0;
    }
    assert boxes.Keys == {};
  }

  lemma InsertCounted(root: Tree, boxes: map<ObjectId, BoundingBox>, id: ObjectId, box: BoundingBox,
                      path: seq<Quadrant>)
    requires Counted(root, boxes) && id !in boxes
    ensures Counted(InsertAt(root, path, id), boxes[id := box])
  {
    var u := InsertAt(root, path, id);
    forall x
      ensures Ids(u)[x] == if x in boxes[id := box] then 1 else 0
    {
      InsertAtIds(root, path, id, x);
      assert Ids(root)[x] == if x in boxes then 1 else 0;
      if x == id {
        assert Ids(u)[x] == 1;
      } else {
        assert Ids(u)[x] == Ids(root)[x];
      }
    }
  }

  lemma InsertLocated(root: Tree, located: map<ObjectId, seq<Quadrant>>, id: ObjectId, path: seq<Quadrant>)
    requires Located(root, located)
    ensures Located(InsertAt(root, path, id), located[id := path])
  {
    var located' := located[id := path];
    forall x | x in located'
      ensures x in ObjectsAt(InsertAt(root, path, id), located'[x])
    {
      InsertAtObjects(root, path, id, located'[x]);
    }
  }

  lemma InsertPlaced(root: Tree, region: BoundingBox, boxes: map<ObjectId, BoundingBox>,
                     id: ObjectId, box: BoundingBox, path: seq<Quadrant>)
    requires Placed(root, region, boxes) && Counted(root, boxes) && id !in boxes
    requires Loose(RegionAt(region, path)).Contains(box)
    ensures Placed(InsertAt(root, path, id), region, boxes[id := box])
  {
    assert Ids(root)[id] == 0;
    PlacedFrame(root, region, boxes, boxes[id := box]);
    PlacedInsertAt(root, region, path, id, boxes[id := box]);
  }

  /** Storing a new object at a path whose loose region holds its box. */
  lemma InsertPreserves(root: Tree, region: BoundingBox, boxes: map<ObjectId, BoundingBox>,
                        located: map<ObjectId, seq<Quadrant>>, size: nat,
                        id: ObjectId, box: BoundingBox, path: seq<Quadrant>)
    requires Invariant(root, region, boxes, located, size)
    requires id !in boxes && box.WellFormed() && region.Contains(box)
    requires Loose(RegionAt(region, path)).Contains(box)
    ensures Invariant(InsertAt(root, path, id), region, boxes[id := box], located[id := path], size + 1)
  {
    InsertShape(region, boxes, located, size, id, box, path);
    InsertCounted(root, boxes, id, box, path);
    InsertLocated(root, located, id, path);
    InsertPlaced(root, region, boxes, id, box, path);
  }

  lemma InsertShape(region: BoundingBox, boxes: map<ObjectId, BoundingBox>,
                    located: map<ObjectId, seq<Quadrant>>, size: nat,
                    id: ObjectId, box: BoundingBox, path: seq<Quadrant>)
    requires size == |boxes| && located.Keys == boxes.Keys && BoxesWellFormed(boxes) && Enclosed(region, boxes)
    requires id !in boxes && box.WellFormed() && region.Contains(box)
    ensures size + 1 == |boxes[id := box]| && located[id := path].Keys == boxes[id := box].Keys
    ensures BoxesWellFormed(boxes[id := box]) && Enclosed(region, boxes[id := box])
  {
  }

  lemma RemoveShape(region: BoundingBox, boxes: map<ObjectId, BoundingBox>,
                    located: map<ObjectId, seq<Quadrant>>, size: nat, id: ObjectId)
    requires size == |boxes| && located.Keys == boxes.Keys && BoxesWellFormed(boxes) && Enclosed(region, boxes)
    requires id in boxes
    ensures size - 1 == |boxes - {id}| && (located - {id}).Keys == (boxes - {id}).Keys
    ensures BoxesWellFormed(boxes - {id}) && Enclosed(region, boxes - {id})
  {
  }

  lemma RemoveCounted(root: Tree, boxes: map<ObjectId, BoundingBox>, id: ObjectId, path: seq<Quadrant>)
    requires Counted(root, boxes) && id in ObjectsAt(root, path)
    ensures Counted(RemoveFrom(root, path, id), boxes - {id})
  {
    assert id in multiset(ObjectsAt(root, path));
    forall x
      ensures Ids(RemoveFrom(root, path, id))[x] == if x in boxes - {id} then 1 else 0
    {
      RemoveFromIds(root, path, id, x);
      assert Ids(root)[x] == if x in boxes then 1 else 0;
    }
  }

  lemma RemoveLocated(root: Tree, located: map<ObjectId, seq<Quadrant>>, id: ObjectId, path: seq<Quadrant>)
    requires Located(root, located)
    ensures Located(RemoveFrom(root, path, id), located - {id})
  {
    var located' := located - {id};
    forall x | x in located'
      ensures x in ObjectsAt(RemoveFrom(root, path, id), located'[x])
    {
      RemoveFromObjects(root, path, id, located'[x]);
      if located'[x] == path {
        assert x in multiset(ObjectsAt(root, path));
        assert x in multiset(Without(ObjectsAt(root, path), id));
      }
    }
  }

  lemma RemovePlaced(root: Tree, region: BoundingBox, boxes: map<ObjectId, BoundingBox>, id: ObjectId,
                     path: seq<Quadrant>)
    requires Placed(root, region, boxes) && Counted(RemoveFrom(root, path, id), boxes - {id})
    ensures Placed(RemoveFrom(root, path, id), region, boxes - {id})
  {
    assert Ids(RemoveFrom(root, path, id))[id] == 0;
    PlacedRemoveFrom(root, region, path, id, boxes);
    PlacedFrame(RemoveFrom(root, path, id), region, boxes, boxes - {id});
  }

  /** Dropping a stored object from the list the lookup names. */
  lemma RemovePreserves(root: Tree, region: BoundingBox, boxes: map<ObjectId, BoundingBox>,
                        located: map<ObjectId, seq<Quadrant>>, size: nat, id: ObjectId)
    requires Invariant(root, region, boxes, located, size) && id in boxes
    ensures Invariant(RemoveFrom(root, located[id], id), region, boxes - {id}, located - {id}, size - 1)
  {
    RemoveShape(region, boxes, located, size, id);
    RemoveCounted(root, boxes, id, located[id]);
    RemoveLocated(root, located, id, located[id]);
    RemovePlaced(root, region, boxes, id, located[id]);
  }

  /** Every lookup path with one more step in front, for a root that moved
      one level down. */
  function Prefixed(located: map<ObjectId, seq<Quadrant>>, q: Quadrant): (m: map<ObjectId, seq<Quadrant>>)
    ensures m.Keys == located.Keys
    ensures forall x :: x in located ==> m[x] == [q] + located[x]
  {
    map x | x in located :: [q] + located[x]
  }

  lemma GrowCounted(root: Tree, boxes: map<ObjectId, BoundingBox>, q: Quadrant)
    requires Counted(root, boxes)
    ensures Counted(Grow(root, q), boxes)
  {
    forall x
      ensures Ids(Grow(root, q))[x] == if x in boxes then 1 else 0
    {
      GrowIds(root, q, x);
      assert Ids(root)[x] == if x in boxes then 1 else 0;
    }
  }

  lemma GrowLocated(root: Tree, located: map<ObjectId, seq<Quadrant>>, q: Quadrant)
    requires Located(root, located) && (root.Nil? ==> located == map[])
    ensures Located(Grow(root, q), Prefixed(located, q))
  {
    forall x | x in located
      ensures x in ObjectsAt(Grow(root, q), Prefixed(located, q)[x])
    {
      GrowObjects(root, q, located[x]);
    }
  }

  /** Moving the root into quadrant q of a region twice its size. */
  lemma GrowPreserves(root: Tree, region: BoundingBox, boxes: map<ObjectId, BoundingBox>,
                      located: map<ObjectId, seq<Quadrant>>, size: nat, q: Quadrant, region': BoundingBox)
    requires Invariant(root, region, boxes, located, size)
    requires region'.WellFormed() && ChildRegion(region', q) == region
    ensures Invariant(Grow(root, q), region', boxes, Prefixed(located, q), size)
  {
    assert Enclosed(region', boxes) by {
      ChildInside(region', q);
      forall x | x in boxes
        ensures region'.Contains(boxes[x])
      {
        ContainsTransitive(region', region, boxes[x]);
      }
    }
    GrowCounted(root, boxes, q);
    GrowLocated(root, located, q);
    GrowPlaced(root, q, region', boxes);
  }

  /** Reclaiming empty nodes. */
  lemma CleanupPreserves(root: Tree, region: BoundingBox, boxes: map<ObjectId, BoundingBox>,
                         located: map<ObjectId, seq<Quadrant>>, size: nat)
    requires Invariant(root, region, boxes, located, size)
    ensures Invariant(Cleanup(root), region, boxes, located, size)
  {
    forall x
      ensures Ids(Cleanup(root))[x] == if x in boxes then 1 else 0
    {
      CleanupIds(root, x);
      assert Ids(root)[x] == if x in boxes then 1 else 0;
    }
    forall x | x in located
      ensures x in ObjectsAt(Cleanup(root), located[x])
    {
      CleanupObjects(root, located[x]);
    }
    CleanupPlaced(root, region, boxes);
  }

  /** A query over the container yields each stored object that satisfies it,
      once, and nothing else. */
  lemma StoredQueryExact(root: Tree, region: BoundingBox, boxes: map<ObjectId, BoundingBox>,
                         located: map<ObjectId, seq<Quadrant>>, size: nat, qy: Query, x: ObjectId)
    requires Invariant(root, region, boxes, located, size)
    ensures multiset(QueryOut(qy, boxes, root, region))[x] == if Matches(qy, boxes, x) then 1 else 0
  {
    assert Ids(root)[x] == if x in boxes then 1 else 0;
    QueryExact(qy, boxes, root, region, x);
  }

  /** How far a box sticks out of a region, summed over the four sides. */
  function Deficit(r: BoundingBox, b: BoundingBox): (d: nat)
    ensures d == 0 <==> r.Contains(b)
  {
    var gap := (n: int) => if n > 0 then n else 0;
    gap(r.left - b.left) + gap(b.Right() - r.Right()) + gap(r.top - b.top) + gap(b.Bottom() - r.Bottom())
  }

  /** The quadrant the old root takes when the root region doubles towards a
      box it does not enclose: the right half when the box sticks out on the
      left, the bottom half when it sticks out at the top. */
  function GrowthQuadrant(r: BoundingBox, box: BoundingBox): Quadrant
  {
    var growLeft, growUp := box.left < r.left, box.top < r.top;
    if growUp then (if growLeft then BottomRight else BottomLeft)
    else (if growLeft then TopRight else TopLeft)
  }

  /** The region twice the size of r that holds r as its growth quadrant. */
  function Doubled(r: BoundingBox, box: BoundingBox): (r': BoundingBox)
    requires r.WellFormed()
    ensures r'.WellFormed() && ChildRegion(r', GrowthQuadrant(r, box)) == r
  {
    BoundingBox(if box.left < r.left then r.left - r.width else r.left,
                if box.top < r.top then r.top - r.height else r.top,
                2 * r.width, 2 * r.height)
  }

  /** Each doubling brings a box the region does not yet enclose strictly
      closer, so growth ends. */
  lemma GrowthProgress(r: BoundingBox, box: BoundingBox)
    requires r.WellFormed() && r.width >= 1 && r.height >= 1 && !r.Contains(box)
    ensures Deficit(Doubled(r, box), box) < Deficit(r, box)
  {
  }

  /** The quadrant of a cell that holds the centre of a box. */
  function Toward(r: BoundingBox, box: BoundingBox): Quadrant
  {
    QuadrantOfPoint(r, box.left + box.width / 2, box.top + box.height / 2)
  }

  /** The region given to the first root: the object's box with a margin of
      one on every side. */
  function InitialRegion(b: BoundingBox): (r: BoundingBox)
    requires b.WellFormed()
    ensures r.width >= 2 && r.height >= 2 && r.Contains(b)
    ensures Loose(r).Right() > b.Right() && Loose(r).left < b.left
  {
    BoundingBox(b.left - 1, b.top - 1, b.width + 2, b.height + 2)
  }

  // ---------------------------------------------------------------------------
  // The container itself.

  class LooseQuadtree {
    /** The root node, Nil while nothing has been inserted or after cleanup
        reclaimed every node. */
    var root: Tree
    /** The tight region of the root cell. */
    var rootRegion: BoundingBox
    /** The box of each stored object, as extracted at its last Insert or Update. */
    var boxes: map<ObjectId, BoundingBox>
    /** Object -> node lookup, the node given by its path from the root. */
    var located: map<ObjectId, seq<Quadrant>>
    var size: nat

    ghost predicate Valid()
      reads this
    {
      Invariant(root, rootRegion, boxes, located, size)
    }

    constructor ()
      ensures Valid() && boxes == map[] && root == Nil
    {
      root := Nil;
      rootRegion := BoundingBox(0, 0, 2, 2);
      boxes := map[];
      located := map[];
      size := 0;
    }

    /** Membership by identity, answered through the lookup. */
    function Contains(id: ObjectId): (b: bool)
      reads this
      requires Valid()
      ensures b <==> id in boxes
      ensures b <==> id in Ids(root)
    {
      assert Ids(root)[id] == if id in boxes then 1 else 0;
      id in located
    }

    function GetSize(): (n: nat)
      reads this
      requires Valid()
      ensures n == |boxes| && n == |Ids(root)|
    {
      TreeHoldsStored(root, rootRegion, boxes, located, size);
      size
    }

    function IsEmpty(): (b: bool)
      reads this
      requires Valid()
      ensures b <==> boxes == map[]
      ensures b <==> Ids(root) == multiset{}
    {
      TreeHoldsStored(root, rootRegion, boxes, located, size);
      size == 0
    }

    /** The loose region of the root cell. On a non-empty tree it meets every
        stored box and no stored box contains it. */
    function GetLooseBoundingBox(): (r: BoundingBox)
      reads this
      requires Valid() && boxes != map[]
      ensures forall x :: x in boxes ==> r.Contains(boxes[x])
      ensures forall x :: x in boxes ==> r.Intersects(boxes[x]) && !boxes[x].Contains(r)
    {
      LooseCoversTight(rootRegion);
      Loose(rootRegion)
    }

    /** Stores an object; a no-op when it is already stored. */
    method Insert(id: ObjectId, box: BoundingBox)
      requires Valid() && box.WellFormed()
      modifies this
      ensures Valid()
      ensures boxes == if id in old(boxes) then old(boxes) else old(boxes)[id := box]
    {
      if id in located {
        return;
      }
      if root.Nil? {
        NilStoresNothing(rootRegion, boxes, located, size);
        Commit(Nil, InitialRegion(box), map[], map[], 0);
      }
      Cover(box);
      var path := Place(box);
      assert Invariant(InsertAt(root, path, id), rootRegion, boxes[id := box], located[id := path], size + 1) by {
        InsertPreserves(root, rootRegion, boxes, located, size, id, box, path);
      }
      Commit(InsertAt(root, path, id), rootRegion, boxes[id := box], located[id := path], size + 1);
    }

    /** Grows the root until its region encloses the box: each step doubles
        the region towards the box and moves the old root into the quadrant
        that keeps its absolute position. */
    method Cover(box: BoundingBox)
      requires Valid() && box.WellFormed()
      modifies this
      ensures Valid() && rootRegion.Contains(box)
      ensures boxes == old(boxes)
    {
      while !rootRegion.Contains(box)
        invariant Valid() && boxes == old(boxes)
        decreases Deficit(rootRegion, box)
      {
        var r := rootRegion;
        var q, r' := GrowthQuadrant(r, box), Doubled(r, box);
        GrowthProgress(r, box);
        assert Invariant(Grow(root, q), r', boxes, Prefixed(located, q), size) by {
          GrowPreserves(root, r, boxes, located, size, q, r');
        }
        Commit(Grow(root, q), r', boxes, Prefixed(located, q), size);
      }
    }

    /** The path of the node an object with this box is placed at: descend
        while the quadrant holding the box's centre still holds the whole box
        in its loose region. */
    method Place(box: BoundingBox) returns (path: seq<Quadrant>)
      requires Valid() && box.WellFormed() && rootRegion.Contains(box)
      ensures Loose(RegionAt(rootRegion, path)).Contains(box)
      ensures |path| <= MaxDepth
      ensures |path| < MaxDepth ==> !Loose(ChildRegion(RegionAt(rootRegion, path), Toward(RegionAt(rootRegion, path), box))).Contains(box)
    {
      var walk := new ForwardTreeTraversal();
      walk.StartAt(root, rootRegion);
      path := [];
      LooseCoversTight(rootRegion);
      while walk.depth < MaxDepth
        invariant walk.region == RegionAt(rootRegion, path) && walk.depth == |path| <= MaxDepth
        invariant walk.region.WellFormed() && Loose(walk.region).Contains(box)
        decreases MaxDepth - walk.depth
      {
        var q := Toward(walk.region, box);
        if !Loose(ChildRegion(walk.region, q)).Contains(box) {
          break;
        }
        ChildInside(walk.region, q);
        RegionAtSnoc(rootRegion, path, q);
        walk.GoTo(q);
        path := path + [q];
      }
    }

    /** Installs a new state of the container. */
    method Commit(root: Tree, rootRegion: BoundingBox, boxes: map<ObjectId, BoundingBox>,
                  located: map<ObjectId, seq<Quadrant>>, size: nat)
      modifies this
      ensures this.root == root && this.rootRegion == rootRegion && this.boxes == boxes
      ensures this.located == located && this.size == size
    {
      this.root, this.rootRegion, this.boxes, this.located, this.size := root, rootRegion, boxes, located, size;
    }

    /** Drops an object; a no-op when it is not stored. Emptied nodes stay
        until the next cleanup. */
    method Remove(id: ObjectId)
      requires Valid()
      modifies this
      ensures Valid()
      ensures boxes == old(boxes) - {id}
    {
      if id in located {
        var root', boxes', located' := RemoveFrom(root, located[id], id), boxes - {id}, located - {id};
        assert Invariant(root', rootRegion, boxes', located', size - 1) by {
          RemovePreserves(root, rootRegion, boxes, located, size, id);
        }
        Commit(root', rootRegion, boxes', located', size - 1);
      }
    }

    /** Re-files a stored object under its current box; a no-op for an
        object that is not stored. */
    method Update(id: ObjectId, box: BoundingBox)
      requires Valid() && box.WellFormed()
      modifies this
      ensures Valid()
      ensures boxes == if id in old(boxes) then old(boxes)[id := box] else old(boxes)
    {
      if id in located {
        ghost var before := boxes;
        Remove(id);
        Insert(id, box);
        Refiled(before, id, box);
      }
    }

    method Clear()
      requires Valid()
      modifies this
      ensures Valid() && boxes == map[]
    {
      root := Nil;
      boxes := map[];
      located := map[];
      size := 0;
    }

    /** Reclaims every node that holds nothing; stored objects, their nodes
        and every query answer stay as they were. */
    method ForceCleanup()
      requires Valid()
      modifies this
      ensures Valid() && Compact(root)
      ensures boxes == old(boxes) && located == old(located) && rootRegion == old(rootRegion)
      ensures forall qy :: QueryOut(qy, boxes, root, rootRegion) == QueryOut(qy, old(boxes), old(root), old(rootRegion))
    {
      CleanupPreserves(root, rootRegion, boxes, located, size);
      forall qy
        ensures QueryOut(qy, boxes, Cleanup(root), rootRegion) == QueryOut(qy, boxes, root, rootRegion)
      {
        QueryOutCleanup(qy, boxes, root, rootRegion);
      }
      root := Cleanup(root);
    }

    /** Starts a query; the iterator yields every stored object that meets
        it, each once. */
    method StartQuery(qy: Query) returns (it: QueryIterator)
      requires Valid()
      ensures fresh(it) && fresh(it.traversal)
      ensures it.Positioned() && it.query == qy && it.boxes == boxes
      ensures it.Remaining() == QueryOut(qy, boxes, root, rootRegion)
      ensures forall x :: multiset(it.Remaining())[x] == if Matches(qy, boxes, x) then 1 else 0
    {
      it := new QueryIterator(root, rootRegion, boxes, qy);
      forall x
        ensures multiset(QueryOut(qy, boxes, root, rootRegion))[x] == if Matches(qy, boxes, x) then 1 else 0
      {
        StoredQueryExact(root, rootRegion, boxes, located, size, qy, x);
      }
    }

    method QueryIntersectsRegion(region: BoundingBox) returns (it: QueryIterator)
      requires Valid()
      ensures fresh(it) && fresh(it.traversal)
      ensures it.Positioned() && it.query == Query(IntersectsRegion, region) && it.boxes == boxes
      ensures forall x :: multiset(it.Remaining())[x] ==
                         if x in boxes && region.Intersects(boxes[x]) then 1 else 0
    {
      it := StartQuery(Query(IntersectsRegion, region));
      assert forall x :: Matches(it.query, boxes, x) <==> x in boxes && region.Intersects(boxes[x]);
    }

    method QueryInsideRegion(region: BoundingBox) returns (it: QueryIterator)
      requires Valid()
      ensures fresh(it) && fresh(it.traversal)
      ensures it.Positioned() && it.query == Query(InsideRegion, region) && it.boxes == boxes
      ensures forall x :: multiset(it.Remaining())[x] ==
                         if x in boxes && region.Contains(boxes[x]) then 1 else 0
    {
      it := StartQuery(Query(InsideRegion, region));
      assert forall x :: Matches(it.query, boxes, x) <==> x in boxes && region.Contains(boxes[x]);
    }

    method QueryContainsRegion(region: BoundingBox) returns (it: QueryIterator)
      requires Valid()
      ensures fresh(it) && fresh(it.traversal)
      ensures it.Positioned() && it.query == Query(ContainsRegion, region) && it.boxes == boxes
      ensures forall x :: multiset(it.Remaining())[x] ==
                         if x in boxes && boxes[x].Contains(region) then 1 else 0
    {
      it := StartQuery(Query(ContainsRegion, region));
      assert forall x :: Matches(it.query, boxes, x) <==> x in boxes && boxes[x].Contains(region);
    }
  }

  // ---------------------------------------------------------------------------
  // Draining a query, and the oracle it is checked against.

  /** The identities of the stored objects that meet a query. */
  ghost function MatchingIds(qy: Query, boxes: map<ObjectId, BoundingBox>): set<ObjectId>
  {
    set x | x in boxes && Satisfies(qy, boxes[x])
  }

  /** A sequence holding each member of a set once, and nothing else, is as
      long as the set is large. */
  lemma {:induction false} OncePerMember(s: seq<ObjectId>, m: set<ObjectId>)
    requires forall x :: multiset(s)[x] == if x in m then 1 else 0
    ensures |s| == |m|
  {
    assert multiset(s) == multiset(m) by {
      forall x
        ensures multiset(s)[x] == multiset(m)[x]
      {
      }
    }
    assert |multiset(s)| == |s|;
  }

  /** Dropping a key and storing it again with a new value is overwriting it. */
  lemma Refiled(m: map<ObjectId, BoundingBox>, id: ObjectId, box: BoundingBox)
    ensures (m - {id})[id := box] == m[id := box]
  {
  }

  /** Runs an iterator to its end, recording each object it yields. */
  method Drain(it: QueryIterator) returns (yielded: seq<ObjectId>)
    requires it.Positioned()
    modifies it, it.traversal
    ensures yielded == old(it.Remaining())
  {
    ghost var all := it.Remaining();
    ghost var rest := all;
    yielded := [];
    AppendNothing(yielded, rest);
    while !it.EndOfQuery()
      invariant it.Positioned() && rest == it.Remaining()
      invariant all == yielded + rest
      decreases |rest|
    {
      var obj := Take(it);
      AppendOne(yielded, obj, it.Remaining());
      yielded := yielded + [obj];
      rest := it.Remaining();
    }
    AppendNothing(yielded, rest);
  }

  /** Moving one element across the seam of a concatenation. */
  lemma AppendOne(front: seq<ObjectId>, x: ObjectId, back: seq<ObjectId>)
    ensures front + ([x] + back) == (front + [x]) + back
  {
  }

  /** Concatenating with an empty sequence changes nothing. */
  lemma AppendNothing(front: seq<ObjectId>, back: seq<ObjectId>)
    ensures back == [] ==> front + back == front
    ensures front == [] ==> front + back == back
  {
  }

  /** The current object of an iterator, which then moves on. */
  method Take(it: QueryIterator) returns (obj: ObjectId)
    requires it.Positioned() && !it.EndOfQuery()
    modifies it, it.traversal
    ensures it.Positioned()
    ensures old(it.Remaining()) == [obj] + it.Remaining()
  {
    ghost var before := it.Remaining();
    obj := it.GetCurrent();
    it.Next();
    assert before == [before[0]] + before[1..];
  }

  /** Runs a query over a container to its end, as the stress test does;
      what it yields agrees with the plain filter of the stored boxes. */
  method CollectQuery(lqt: LooseQuadtree, qy: Query) returns (yielded: seq<ObjectId>)
    requires lqt.Valid()
    ensures forall x :: x in yielded <==> x in lqt.boxes && Satisfies(qy, lqt.boxes[x])
    ensures forall x :: multiset(yielded)[x] <= 1
    ensures |yielded| == |MatchingIds(qy, lqt.boxes)|
  {
    var it := lqt.StartQuery(qy);
    yielded := Drain(it);
    OracleAgrees(yielded, qy, lqt.boxes);
  }

  /** A sequence that holds each stored object meeting the query once and
      nothing else is, as a set, the filtered store, and as long as it. */
  lemma OracleAgrees(s: seq<ObjectId>, qy: Query, boxes: map<ObjectId, BoundingBox>)
    requires forall x :: multiset(s)[x] == if Matches(qy, boxes, x) then 1 else 0
    ensures forall x :: x in s <==> x in boxes && Satisfies(qy, boxes[x])
    ensures forall x :: multiset(s)[x] <= 1
    ensures |s| == |MatchingIds(qy, boxes)|
  {
    forall x
      ensures multiset(s)[x] == if x in MatchingIds(qy, boxes) then 1 else 0
    {
    }
    OncePerMember(s, MatchingIds(qy, boxes));
    forall x
      ensures x in s <==> x in boxes && Satisfies(qy, boxes[x])
    {
      assert x in s <==> x in multiset(s);
    }
  }
}
