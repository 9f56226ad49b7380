/** Quadrant geometry and the quadrant tree itself. A node owns its four child
    slots and a local list of object identities; it stores neither its region
    nor a parent link: regions are derived from the root region and the path
    of quadrants that leads to the node. */
module TreeNodes {
  import opened BoundingBoxes

  /** Objects are known to the tree by identity only. */
  type ObjectId = nat

  /** Which child a traversal level is positioned at; NoChild means the node itself. */
  datatype ChildPosition = NoChild | TopLeft | TopRight | BottomRight | BottomLeft

  type Quadrant = c: ChildPosition | c != NoChild witness TopLeft

  /** The tight region of one quadrant: the left column and the top row take
      the truncated half, the right column and the bottom row the rest. */
  function ChildRegion(r: BoundingBox, q: Quadrant): BoundingBox
  {
    var leftWidth := r.width / 2;
    var topHeight := r.height / 2;
    match q
    case TopLeft => BoundingBox(r.left, r.top, leftWidth, topHeight)
    case TopRight => BoundingBox(r.left + leftWidth, r.top, r.width - leftWidth, topHeight)
    case BottomRight =>
      BoundingBox(r.left + leftWidth, r.top + topHeight, r.width - leftWidth, r.height - topHeight)
    case BottomLeft => BoundingBox(r.left, r.top + topHeight, leftWidth, r.height - topHeight)
  }

  /** The split law: the columns add up to the width, the rows to the height,
      and quadrants in one column or row share that column's width or row's height. */
  lemma SplitLaw(r: BoundingBox)
    requires r.WellFormed()
    ensures var tl, tr := ChildRegion(r, TopLeft), ChildRegion(r, TopRight);
            var br, bl := ChildRegion(r, BottomRight), ChildRegion(r, BottomLeft);
            && tl.width + tr.width == r.width && tl.height + bl.height == r.height
            && tl.height + br.height == r.height
            && tr.width == br.width && tl.width == bl.width
            && tl.height == tr.height && bl.height == br.height
            && tr.left == tl.Right() && bl.top == tl.Bottom()
            && tl.WellFormed() && tr.WellFormed() && br.WellFormed() && bl.WellFormed()
  {
  }

  /** Every quadrant is well formed and lies inside its parent. */
  lemma ChildInside(r: BoundingBox, q: Quadrant)
    requires r.WellFormed()
    ensures ChildRegion(r, q).WellFormed() && r.Contains(ChildRegion(r, q))
  {
  }

  /** The quadrant whose tight region holds a point of the parent. */
  function QuadrantOfPoint(r: BoundingBox, x: int, y: int): Quadrant
  {
    var right := x >= r.left + r.width / 2;
    var bottom := y >= r.top + r.height / 2;
    if bottom then (if right then BottomRight else BottomLeft)
    else (if right then TopRight else TopLeft)
  }

  /** The four quadrants partition the parent: each of its points lies in
      exactly one of them. */
  lemma PointInExactlyOneQuadrant(r: BoundingBox, x: int, y: int)
    requires r.WellFormed() && r.ContainsPoint(x, y)
    ensures ChildRegion(r, QuadrantOfPoint(r, x, y)).ContainsPoint(x, y)
    ensures forall q: Quadrant :: ChildRegion(r, q).ContainsPoint(x, y) ==> q == QuadrantOfPoint(r, x, y)
  {
  }

  /** Distinct quadrants never overlap. */
  lemma QuadrantsDisjoint(r: BoundingBox, q1: Quadrant, q2: Quadrant)
    requires r.WellFormed() && q1 != q2
    ensures !ChildRegion(r, q1).Intersects(ChildRegion(r, q2))
  {
  }

  /** The loose region of a cell: its tight region grown by half a cell on the
      near sides, so that it spans twice the cell in each direction. */
  function Loose(r: BoundingBox): BoundingBox
  {
    BoundingBox(r.left - r.width / 2, r.top - r.height / 2, 2 * r.width, 2 * r.height)
  }

  /** The loose region covers the tight one, and strictly passes its far edges
      when the cell is not empty. */
  lemma LooseCoversTight(r: BoundingBox)
    requires r.WellFormed()
    ensures Loose(r).WellFormed() && Loose(r).Contains(r)
    ensures r.width >= 1 ==> Loose(r).Right() > r.Right()
    ensures r.height >= 1 ==> Loose(r).Bottom() > r.Bottom()
  {
  }

  /** A quadrant's loose region lies inside its parent's loose region. */
  lemma LooseNested(r: BoundingBox, q: Quadrant)
    requires r.WellFormed()
    ensures Loose(r).Contains(Loose(ChildRegion(r, q)))
  {
  }

  /** The region of the cell reached from a cell with region r along a path. */
  function RegionAt(r: BoundingBox, path: seq<Quadrant>): BoundingBox
    decreases path
  {
    if path == [] then r else RegionAt(ChildRegion(r, path[0]), path[1..])
  }

  lemma {:induction false} RegionAtSnoc(r: BoundingBox, path: seq<Quadrant>, q: Quadrant)
    ensures RegionAt(r, path + [q]) == ChildRegion(RegionAt(r, path), q)
    decreases path
  {
    if path != [] {
      assert (path + [q])[1..] == path[1..] + [q];
      RegionAtSnoc(ChildRegion(r, path[0]), path[1..], q);
    }
  }

  /** A quadrant tree: Nil is an empty child slot. */
  datatype Tree =
    | Nil
    | Node(topLeft: Tree, topRight: Tree, bottomRight: Tree, bottomLeft: Tree, objects: seq<ObjectId>)

  /** A node with all child slots empty and no objects, as the allocator hands it out. */
  function EmptyNode(): Tree
  {
    Node(Nil, Nil, Nil, Nil, [])
  }

  /** The number of nodes plus the number of stored references, with every
      node counted twice; it bounds the steps of a traversal. */
  function Weight(t: Tree): nat
  {
    match t
    case Nil => 0
    case Node(tl, tr, br, bl, objects) =>
      2 + |objects| + Weight(tl) + Weight(tr) + Weight(br) + Weight(bl)
  }

  function Child(t: Tree, q: Quadrant): (c: Tree)
    ensures t.Node? ==> Weight(c) + 2 <= Weight(t)
  {
    match t
    case Nil => Nil
    case Node(tl, tr, br, bl, _) =>
      match q
      case TopLeft => tl
      case TopRight => tr
      case BottomRight => br
      case BottomLeft => bl
  }

  /** The node with one child slot replaced. */
  function WithChild(t: Tree, q: Quadrant, c: Tree): (u: Tree)
    requires t.Node?
    ensures u.Node? && u.objects == t.objects && Child(u, q) == c
    ensures forall q': Quadrant :: q' != q ==> Child(u, q') == Child(t, q')
  {
    match q
    case TopLeft => t.(topLeft := c)
    case TopRight => t.(topRight := c)
    case BottomRight => t.(bottomRight := c)
    case BottomLeft => t.(bottomLeft := c)
  }

  /** Every object reference stored anywhere in the tree, with multiplicity. */
  function Ids(t: Tree): multiset<ObjectId>
  {
    match t
    case Nil => multiset{}
    case Node(tl, tr, br, bl, objects) =>
      multiset(objects) + Ids(tl) + Ids(tr) + Ids(br) + Ids(bl)
  }

  /** The node reached along a path, Nil when a slot on the way is empty. */
  function NodeAt(t: Tree, path: seq<Quadrant>): Tree
  {
    if path == [] || t.Nil? then t else NodeAt(Child(t, path[0]), path[1..])
  }

  /** The local list of the node reached along a path (empty when there is none). */
  function ObjectsAt(t: Tree, path: seq<Quadrant>): seq<ObjectId>
  {
    var n := NodeAt(t, path);
    if n.Node? then n.objects else []
  }

  /** How often one identity occurs in a node: in its own list plus its subtrees. */
  lemma CountInNode(t: Tree, x: ObjectId)
    requires t.Node?
    ensures Ids(t)[x] == multiset(t.objects)[x] + Ids(Child(t, TopLeft))[x] + Ids(Child(t, TopRight))[x]
                         + Ids(Child(t, BottomRight))[x] + Ids(Child(t, BottomLeft))[x]
  {
  }

  /** Replacing one child slot changes the count by the difference of the two subtrees. */
  lemma CountWithChild(t: Tree, q: Quadrant, c: Tree, x: ObjectId)
    requires t.Node?
    ensures Ids(WithChild(t, q, c))[x] + Ids(Child(t, q))[x] == Ids(t)[x] + Ids(c)[x]
  {
    CountInNode(t, x);
    CountInNode(WithChild(t, q, c), x);
  }

  lemma ObjectsAtCons(t: Tree, p: seq<Quadrant>)
    requires t.Node? && p != []
    ensures ObjectsAt(t, p) == ObjectsAt(Child(t, p[0]), p[1..])
  {
  }

  /** Two distinct subtrees of a node are disjoint parts of it. */
  lemma CountTwoChildren(t: Tree, q1: Quadrant, q2: Quadrant, x: ObjectId)
    requires t.Node? && q1 != q2
    ensures Ids(Child(t, q1))[x] + Ids(Child(t, q2))[x] <= Ids(t)[x]
  {
    CountInNode(t, x);
  }

  /** The lists of two distinct nodes are disjoint parts of the whole tree. */
  lemma {:induction false} TwoListsInTree(t: Tree, p1: seq<Quadrant>, p2: seq<Quadrant>, x: ObjectId)
    requires p1 != p2
    ensures multiset(ObjectsAt(t, p1))[x] + multiset(ObjectsAt(t, p2))[x] <= Ids(t)[x]
  {
    if t.Node? {
      if p1 == [] {
        ObjectsAtCons(t, p2);
        OneListInTree(Child(t, p2[0]), p2[1..], x);
        ChildWithin(t, p2[0], x);
      } else if p2 == [] {
        ObjectsAtCons(t, p1);
        OneListInTree(Child(t, p1[0]), p1[1..], x);
        ChildWithin(t, p1[0], x);
      } else {
        ObjectsAtCons(t, p1);
        ObjectsAtCons(t, p2);
        if p1[0] == p2[0] {
          assert p1 == [p1[0]] + p1[1..] && p2 == [p2[0]] + p2[1..];
          TwoListsInTree(Child(t, p1[0]), p1[1..], p2[1..], x);
          ChildWithin(t, p1[0], x);
        } else {
          OneListInTree(Child(t, p1[0]), p1[1..], x);
          OneListInTree(Child(t, p2[0]), p2[1..], x);
          CountTwoChildren(t, p1[0], p2[0], x);
        }
      }
    }
  }

  lemma {:induction false} OneListInTree(t: Tree, p: seq<Quadrant>, x: ObjectId)
    ensures multiset(ObjectsAt(t, p))[x] <= Ids(t)[x]
  {
    if t.Node? {
      if p == [] {
        ChildWithin(t, TopLeft, x);
      } else {
        ObjectsAtCons(t, p);
        OneListInTree(Child(t, p[0]), p[1..], x);
        ChildWithin(t, p[0], x);
      }
    }
  }

  /** A node's own list and any one of its subtrees are disjoint parts of it. */
  lemma ChildWithin(t: Tree, q: Quadrant, x: ObjectId)
    requires t.Node?
    ensures multiset(t.objects)[x] + Ids(Child(t, q))[x] <= Ids(t)[x]
  {
    CountInNode(t, x);
  }

  /** Adds an object to the list of the node at a path, creating the missing
      nodes on the way, as insertion descent does. */
  function InsertAt(t: Tree, path: seq<Quadrant>, id: ObjectId): (u: Tree)
    ensures u.Node?
    decreases path
  {
    var n := if t.Nil? then EmptyNode() else t;
    if path == [] then n.(objects := n.objects + [id])
    else WithChild(n, path[0], InsertAt(Child(n, path[0]), path[1..], id))
  }

  lemma {:induction false} InsertAtIds(t: Tree, path: seq<Quadrant>, id: ObjectId, x: ObjectId)
    ensures Ids(InsertAt(t, path, id))[x] == Ids(t)[x] + (if x == id then 1 else 0)
    decreases path
  {
    var n := if t.Nil? then EmptyNode() else t;
    if path == [] {
      CountInNode(n, x);
      CountInNode(InsertAt(t, path, id), x);
    } else {
      InsertAtIds(Child(n, path[0]), path[1..], id, x);
      CountWithChild(n, path[0], InsertAt(Child(n, path[0]), path[1..], id), x);
    }
  }

  /** Insertion changes the list at its path only, and only by appending. */
  lemma {:induction false} InsertAtObjects(t: Tree, path: seq<Quadrant>, id: ObjectId, p: seq<Quadrant>)
    ensures ObjectsAt(InsertAt(t, path, id), p) ==
            ObjectsAt(t, p) + (if p == path then [id] else [])
    decreases path
  {
    var n := if t.Nil? then EmptyNode() else t;
    if p == [] || path == [] {
      if t.Nil? && p != [] {
        NilHasNoObjects(p[1..]);
      }
    } else {
      if p[0] == path[0] {
        InsertAtObjects(Child(n, path[0]), path[1..], id, p[1..]);
      } else {
        if t.Nil? {
          NilHasNoObjects(p[1..]);
        }
      }
    }
  }

  lemma NilHasNoObjects(p: seq<Quadrant>)
    ensures ObjectsAt(Nil, p) == []
  {
  }

  /** The list without any occurrence of one identity, order otherwise kept. */
  function Without(s: seq<ObjectId>, id: ObjectId): (r: seq<ObjectId>)
    ensures multiset(r) == multiset(s)[id := 0]
  {
    if s == [] then []
    else (assert s == [s[0]] + s[1..];
          if s[0] == id then Without(s[1..], id) else [s[0]] + Without(s[1..], id))
  }

  /** Removes an object from the list of the node at a path. */
  function RemoveFrom(t: Tree, path: seq<Quadrant>, id: ObjectId): Tree
    decreases path
  {
    if t.Nil? then Nil
    else if path == [] then t.(objects := Without(t.objects, id))
    else WithChild(t, path[0], RemoveFrom(Child(t, path[0]), path[1..], id))
  }

  lemma {:induction false} RemoveFromIds(t: Tree, path: seq<Quadrant>, id: ObjectId, x: ObjectId)
    ensures Ids(RemoveFrom(t, path, id))[x] + (if x == id then multiset(ObjectsAt(t, path))[x] else 0)
            == Ids(t)[x]
    decreases path
  {
    if t.Node? {
      if path == [] {
        var u := t.(objects := Without(t.objects, id));
        assert multiset(u.objects)[x] + (if x == id then multiset(t.objects)[x] else 0) == multiset(t.objects)[x];
        CountInNode(t, x);
        CountInNode(u, x);
      } else {
        ObjectsAtCons(t, path);
        RemoveFromIds(Child(t, path[0]), path[1..], id, x);
        CountWithChild(t, path[0], RemoveFrom(Child(t, path[0]), path[1..], id), x);
      }
    }
  }

  lemma {:induction false} RemoveFromObjects(t: Tree, path: seq<Quadrant>, id: ObjectId, p: seq<Quadrant>)
    ensures ObjectsAt(RemoveFrom(t, path, id), p) ==
            if p == path then Without(ObjectsAt(t, p), id) else ObjectsAt(t, p)
    decreases path
  {
    if t.Node? && p != [] && path != [] && p[0] == path[0] {
      RemoveFromObjects(Child(t, path[0]), path[1..], id, p[1..]);
    }
  }

  lemma WithoutSubset(s: seq<ObjectId>, id: ObjectId, x: ObjectId)
    requires x in Without(s, id)
    ensures x in s && x != id
  {
    assert x in multiset(Without(s, id));
  }

  /** The placement invariant: every object listed at a node lies inside the
      loose region of that node (r is the tight region of t's cell). */
  ghost predicate Placed(t: Tree, r: BoundingBox, boxes: map<ObjectId, BoundingBox>)
  {
    match t
    case Nil => true
    case Node(tl, tr, br, bl, objects) =>
      && (forall id :: id in objects ==> id in boxes && Loose(r).Contains(boxes[id]))
      && Placed(tl, ChildRegion(r, TopLeft), boxes)
      && Placed(tr, ChildRegion(r, TopRight), boxes)
      && Placed(br, ChildRegion(r, BottomRight), boxes)
      && Placed(bl, ChildRegion(r, BottomLeft), boxes)
  }

  lemma PlacedChild(t: Tree, r: BoundingBox, boxes: map<ObjectId, BoundingBox>, q: Quadrant)
    requires t.Node? && Placed(t, r, boxes)
    ensures Placed(Child(t, q), ChildRegion(r, q), boxes)
  {
  }

  /** Every object anywhere in a placed subtree lies inside the subtree's
      loose region, because loose regions nest. */
  lemma {:induction false} PlacedWithin(t: Tree, r: BoundingBox, boxes: map<ObjectId, BoundingBox>, x: ObjectId)
    requires Placed(t, r, boxes) && r.WellFormed() && x in Ids(t)
    ensures x in boxes && Loose(r).Contains(boxes[x])
  {
    CountInNode(t, x);
    if x !in t.objects {
      var q: Quadrant :|
        q in {TopLeft, TopRight, BottomRight, BottomLeft} && x in Ids(Child(t, q));
      PlacedChild(t, r, boxes, q);
      ChildInside(r, q);
      PlacedWithin(Child(t, q), ChildRegion(r, q), boxes, x);
      LooseNested(r, q);
    }
  }

  /** Inserting at a node whose loose region holds the object keeps the tree placed. */
  lemma {:induction false} PlacedInsertAt(t: Tree, r: BoundingBox, path: seq<Quadrant>, id: ObjectId,
                                          boxes: map<ObjectId, BoundingBox>)
    requires Placed(t, r, boxes) && id in boxes && Loose(RegionAt(r, path)).Contains(boxes[id])
    ensures Placed(InsertAt(t, path, id), r, boxes)
    decreases path
  {
    var n := if t.Nil? then EmptyNode() else t;
    if path != [] {
      PlacedChild(n, r, boxes, path[0]);
      PlacedInsertAt(Child(n, path[0]), ChildRegion(r, path[0]), path[1..], id, boxes);
      PlacedWithChild(n, r, path[0], InsertAt(Child(n, path[0]), path[1..], id), boxes);
    }
  }

  lemma PlacedWithChild(t: Tree, r: BoundingBox, q: Quadrant, c: Tree, boxes: map<ObjectId, BoundingBox>)
    requires t.Node? && Placed(t, r, boxes) && Placed(c, ChildRegion(r, q), boxes)
    ensures Placed(WithChild(t, q, c), r, boxes)
  {
  }

  lemma {:induction false} PlacedRemoveFrom(t: Tree, r: BoundingBox, path: seq<Quadrant>, id: ObjectId,
                                            boxes: map<ObjectId, BoundingBox>)
    requires Placed(t, r, boxes)
    ensures Placed(RemoveFrom(t, path, id), r, boxes)
    decreases path
  {
    if t.Node? {
      if path == [] {
        forall x | x in Without(t.objects, id)
          ensures x in boxes && Loose(r).Contains(boxes[x])
        {
          WithoutSubset(t.objects, id, x);
        }
      } else {
        PlacedChild(t, r, boxes, path[0]);
        PlacedRemoveFrom(Child(t, path[0]), ChildRegion(r, path[0]), path[1..], id, boxes);
        PlacedWithChild(t, r, path[0], RemoveFrom(Child(t, path[0]), path[1..], id), boxes);
      }
    }
  }

  lemma ChildIdsInTree(t: Tree, q: Quadrant, x: ObjectId)
    requires t.Node? && x in Ids(Child(t, q))
    ensures x in Ids(t)
  {
    CountInNode(t, x);
  }

  /** Placement depends only on the boxes of the objects actually stored. */
  lemma {:induction false} PlacedFrame(t: Tree, r: BoundingBox, b1: map<ObjectId, BoundingBox>,
                                       b2: map<ObjectId, BoundingBox>)
    requires Placed(t, r, b1)
    requires forall x :: x in b1 && x in Ids(t) ==> x in b2 && b2[x] == b1[x]
    ensures Placed(t, r, b2)
  {
    if t.Node? {
      forall q: Quadrant
        ensures Placed(Child(t, q), ChildRegion(r, q), b2)
      {
        forall x | x in b1 && x in Ids(Child(t, q))
          ensures x in b2 && b2[x] == b1[x]
        {
          ChildIdsInTree(t, q, x);
        }
        PlacedChild(t, r, b1, q);
        PlacedFrame(Child(t, q), ChildRegion(r, q), b1, b2);
      }
      assert Placed(Child(t, TopLeft), ChildRegion(r, TopLeft), b2);
      assert Placed(Child(t, TopRight), ChildRegion(r, TopRight), b2);
      assert Placed(Child(t, BottomRight), ChildRegion(r, BottomRight), b2);
      assert Placed(Child(t, BottomLeft), ChildRegion(r, BottomLeft), b2);
      forall id | id in t.objects
        ensures id in b2 && Loose(r).Contains(b2[id])
      {
        assert id in multiset(t.objects);
        CountInNode(t, id);
      }
    }
  }

  /** A new root one level up, holding the old root in quadrant q. */
  function Grow(t: Tree, q: Quadrant): (u: Tree)
    ensures t.Node? ==> u.Node? && u.objects == [] && Child(u, q) == t
  {
    if t.Nil? then Nil else WithChild(EmptyNode(), q, t)
  }

  lemma GrowIds(t: Tree, q: Quadrant, x: ObjectId)
    ensures Ids(Grow(t, q))[x] == Ids(t)[x]
  {
    if t.Node? {
      CountWithChild(EmptyNode(), q, t, x);
    }
  }

  lemma GrowObjects(t: Tree, q: Quadrant, p: seq<Quadrant>)
    requires t.Node?
    ensures ObjectsAt(Grow(t, q), [q] + p) == ObjectsAt(t, p)
  {
    ObjectsAtCons(Grow(t, q), [q] + p);
    assert ([q] + p)[1..] == p;
  }

  lemma GrowPlaced(t: Tree, q: Quadrant, r: BoundingBox, boxes: map<ObjectId, BoundingBox>)
    requires Placed(t, ChildRegion(r, q), boxes)
    ensures Placed(Grow(t, q), r, boxes)
  {
    if t.Node? {
      PlacedWithChild(EmptyNode(), r, q, t, boxes);
    }
  }

  /** A node is reclaimable when it has no local objects and no children. */
  predicate Reclaimable(t: Tree)
  {
    t.Node? && t.objects == [] && t.topLeft.Nil? && t.topRight.Nil? && t.bottomRight.Nil? && t.bottomLeft.Nil?
  }

  /** No reclaimable node anywhere in the tree. */
  predicate Compact(t: Tree)
  {
    match t
    case Nil => true
    case Node(tl, tr, br, bl, _) =>
      !Reclaimable(t) && Compact(tl) && Compact(tr) && Compact(br) && Compact(bl)
  }

  /** Lazy reclamation: bottom-up, unlink every node that holds nothing. */
  function Cleanup(t: Tree): (u: Tree)
    ensures Compact(u)
  {
    match t
    case Nil => Nil
    case Node(tl, tr, br, bl, objects) =>
      var n := Node(Cleanup(tl), Cleanup(tr), Cleanup(br), Cleanup(bl), objects);
      if Reclaimable(n) then Nil else n
  }

  lemma CleanupChild(t: Tree, q: Quadrant)
    requires Cleanup(t).Node?
    ensures Child(Cleanup(t), q) == Cleanup(Child(t, q))
  {
  }

  /** Cleanup keeps every node that holds an object where it was, with its list. */
  lemma {:induction false} CleanupObjects(t: Tree, p: seq<Quadrant>)
    ensures ObjectsAt(Cleanup(t), p) == ObjectsAt(t, p)
  {
    if t.Node? {
      if Cleanup(t).Nil? {
        if p != [] {
          ObjectsAtCons(t, p);
          CleanupObjects(Child(t, p[0]), p[1..]);
          NilHasNoObjects(p[1..]);
        }
      } else if p != [] {
        ObjectsAtCons(t, p);
        ObjectsAtCons(Cleanup(t), p);
        CleanupChild(t, p[0]);
        CleanupObjects(Child(t, p[0]), p[1..]);
      }
    }
  }

  lemma {:induction false} CleanupIds(t: Tree, x: ObjectId)
    ensures Ids(Cleanup(t))[x] == Ids(t)[x]
  {
    match t
    case Nil =>
    case Node(tl, tr, br, bl, objects) =>
      CleanupIds(tl, x);
      CleanupIds(tr, x);
      CleanupIds(br, x);
      CleanupIds(bl, x);
      var n := Node(Cleanup(tl), Cleanup(tr), Cleanup(br), Cleanup(bl), objects);
      assert Ids(n)[x] == Ids(t)[x];
      if Reclaimable(n) {
        assert Ids(n)[x] == 0;
      }
  }

  lemma {:induction false} CleanupPlaced(t: Tree, r: BoundingBox, boxes: map<ObjectId, BoundingBox>)
    requires Placed(t, r, boxes)
    ensures Placed(Cleanup(t), r, boxes)
  {
    match t
    case Nil =>
    case Node(tl, tr, br, bl, objects) =>
      CleanupPlaced(tl, ChildRegion(r, TopLeft), boxes);
      CleanupPlaced(tr, ChildRegion(r, TopRight), boxes);
      CleanupPlaced(br, ChildRegion(r, BottomRight), boxes);
      CleanupPlaced(bl, ChildRegion(r, BottomLeft), boxes);
  }
}
