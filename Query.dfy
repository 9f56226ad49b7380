/** The three region queries: what each yields (a depth-first scan of the
    tree that skips subtrees whose loose region rules out any match), and the
    proof that this equals a plain filter of the stored objects. */
module Queries {
  import opened BoundingBoxes
  import opened TreeNodes
  import opened Traversals

  datatype QueryKind = IntersectsRegion | InsideRegion | ContainsRegion

  datatype Query = Query(kind: QueryKind, region: BoundingBox)

  /** The predicate an object's box must meet to be yielded. */
  predicate Satisfies(qy: Query, o: BoundingBox)
  {
    match qy.kind
    case IntersectsRegion => qy.region.Intersects(o)
    case InsideRegion => qy.region.Contains(o)
    case ContainsRegion => o.Contains(qy.region)
  }

  /** Closed-interval overlap: the boxes overlap or touch. */
  predicate Touches(a: BoundingBox, b: BoundingBox)
  {
    a.left <= b.Right() && b.left <= a.Right() && a.top <= b.Bottom() && b.top <= a.Bottom()
  }

  /** The test that keeps a subtree: whether some object inside its loose
      region could still satisfy the query. */
  predicate MayHold(qy: Query, loose: BoundingBox)
  {
    match qy.kind
    case IntersectsRegion => loose.Intersects(qy.region)
    case InsideRegion => Touches(loose, qy.region)
    case ContainsRegion => loose.Contains(qy.region)
  }

  /** Pruning never loses an answer: an object inside a loose region that
      satisfies the query leaves that region's subtree in the scan. */
  lemma PruneSound(qy: Query, loose: BoundingBox, o: BoundingBox)
    requires o.WellFormed() && loose.Contains(o) && Satisfies(qy, o)
    ensures MayHold(qy, loose)
  {
  }

  /** Why the inside query cannot prune on intersection: an empty object on
      the far corner of the query region is inside it, yet the loose region
      holding it does not intersect the query region. */
  lemma InsideWithoutIntersection()
    ensures var o, q, loose := BoundingBox(10, 10, 0, 0), BoundingBox(0, 0, 10, 10), BoundingBox(10, 10, 4, 4);
            o.WellFormed() && loose.Contains(o) && q.Contains(o) && !loose.Intersects(q)
  {
  }

  predicate Matches(qy: Query, boxes: map<ObjectId, BoundingBox>, id: ObjectId)
  {
    id in boxes && Satisfies(qy, boxes[id])
  }

  /** The objects of one node list that satisfy the query, in list order. */
  function Filter(qy: Query, boxes: map<ObjectId, BoundingBox>, objects: seq<ObjectId>): (r: seq<ObjectId>)
    ensures forall x :: multiset(r)[x] == if Matches(qy, boxes, x) then multiset(objects)[x] else 0
  {
    if objects == [] then []
    else
      assert objects == [objects[0]] + objects[1..];
      (if Matches(qy, boxes, objects[0]) then [objects[0]] else []) + Filter(qy, boxes, objects[1..])
  }

  /** A subtree the scan enters: present, and its loose region passes MayHold. */
  predicate Visible(qy: Query, t: Tree, r: BoundingBox)
  {
    t.Node? && MayHold(qy, Loose(r))
  }

  function Ord(p: ChildPosition): nat
  {
    match p
    case NoChild => 0
    case TopLeft => 1
    case TopRight => 2
    case BottomRight => 3
    case BottomLeft => 4
  }

  /** The quadrant visited after position p, in the order
      top-left, top-right, bottom-right, bottom-left. */
  function After(p: ChildPosition): (q: Quadrant)
    requires p != BottomLeft
    ensures Ord(q) == Ord(p) + 1
  {
    match p
    case NoChild => TopLeft
    case TopLeft => TopRight
    case TopRight => BottomRight
    case BottomRight => BottomLeft
  }

  /** What the scan yields for a subtree it enters: the node's own matches,
      then its visible children in order. */
  function SubtreeOut(qy: Query, boxes: map<ObjectId, BoundingBox>, t: Tree, r: BoundingBox): seq<ObjectId>
    decreases Weight(t), 2, 0
  {
    if t.Nil? then [] else Filter(qy, boxes, t.objects) + ChildrenAfter(qy, boxes, t, r, NoChild)
  }

  /** What the scan yields from the children of t that come after position p. */
  function ChildrenAfter(qy: Query, boxes: map<ObjectId, BoundingBox>, t: Tree, r: BoundingBox,
                         p: ChildPosition): seq<ObjectId>
    decreases Weight(t), 1, 4 - Ord(p)
  {
    if p == BottomLeft then []
    else
      var c := After(p);
      Contribution(qy, boxes, t, r, c) + ChildrenAfter(qy, boxes, t, r, c)
  }

  function Contribution(qy: Query, boxes: map<ObjectId, BoundingBox>, t: Tree, r: BoundingBox,
                        q: Quadrant): seq<ObjectId>
    decreases Weight(t), 0, 0
  {
    var child := Child(t, q);
    if Visible(qy, child, ChildRegion(r, q)) then
      assert t.Node?;
      SubtreeOut(qy, boxes, child, ChildRegion(r, q))
    else []
  }

  /** What a whole query yields from a root with region r. */
  function QueryOut(qy: Query, boxes: map<ObjectId, BoundingBox>, root: Tree, r: BoundingBox): seq<ObjectId>
  {
    if Visible(qy, root, r) then SubtreeOut(qy, boxes, root, r) else []
  }

  /** The next child after position p that the scan enters, NoChild if none. */
  function NextChild(qy: Query, t: Tree, r: BoundingBox, p: ChildPosition): (n: ChildPosition)
    ensures n != NoChild ==> Ord(n) > Ord(p) && Visible(qy, Child(t, n), ChildRegion(r, n))
    decreases 4 - Ord(p)
  {
    if p == BottomLeft then NoChild
    else
      var c := After(p);
      if Visible(qy, Child(t, c), ChildRegion(r, c)) then c else NextChild(qy, t, r, c)
  }

  /** The children after p are the next visible child's subtree followed by
      the children after that one. */
  lemma {:induction false} NextChildSplits(qy: Query, boxes: map<ObjectId, BoundingBox>, t: Tree,
                                           r: BoundingBox, p: ChildPosition)
    ensures var n := NextChild(qy, t, r, p);
            ChildrenAfter(qy, boxes, t, r, p) ==
            if n == NoChild then []
            else SubtreeOut(qy, boxes, Child(t, n), ChildRegion(r, n)) + ChildrenAfter(qy, boxes, t, r, n)
    decreases 4 - Ord(p)
  {
    if p != BottomLeft {
      var c := After(p);
      if !Visible(qy, Child(t, c), ChildRegion(r, c)) {
        NextChildSplits(qy, boxes, t, r, c);
        SkipInvisible(qy, boxes, t, r, p);
      }
    }
  }

  /** A child the scan does not enter contributes nothing. */
  lemma SkipInvisible(qy: Query, boxes: map<ObjectId, BoundingBox>, t: Tree, r: BoundingBox, p: ChildPosition)
    requires p != BottomLeft && !Visible(qy, Child(t, After(p)), ChildRegion(r, After(p)))
    ensures ChildrenAfter(qy, boxes, t, r, p) == ChildrenAfter(qy, boxes, t, r, After(p))
    ensures NextChild(qy, t, r, p) == NextChild(qy, t, r, After(p))
  {
    var later := ChildrenAfter(qy, boxes, t, r, After(p));
    assert ChildrenAfter(qy, boxes, t, r, p) == [] + later;
  }

  /** The weight of the children after position p. */
  function WeightAfter(t: Tree, p: ChildPosition): nat
    decreases 4 - Ord(p)
  {
    if p == BottomLeft then 0 else Weight(Child(t, After(p))) + WeightAfter(t, After(p))
  }

  lemma {:induction false} WeightAfterSplits(qy: Query, t: Tree, r: BoundingBox, p: ChildPosition)
    requires NextChild(qy, t, r, p) != NoChild
    ensures var n := NextChild(qy, t, r, p);
            Weight(Child(t, n)) + WeightAfter(t, n) <= WeightAfter(t, p)
    decreases 4 - Ord(p)
  {
    var c := After(p);
    if !Visible(qy, Child(t, c), ChildRegion(r, c)) {
      WeightAfterSplits(qy, t, r, c);
    }
  }

  lemma WeightOfNode(t: Tree)
    requires t.Node?
    ensures Weight(t) == 2 + |t.objects| + WeightAfter(t, NoChild)
  {
  }

  // ---------------------------------------------------------------------------
  // The scan yields exactly the matching stored objects, each once.

  /** How often x is stored in the children of t after position p. */
  function CountAfter(t: Tree, p: ChildPosition, x: ObjectId): nat
    decreases 4 - Ord(p)
  {
    if p == BottomLeft then 0 else Ids(Child(t, After(p)))[x] + CountAfter(t, After(p), x)
  }

  lemma {:induction false} OutSound(qy: Query, boxes: map<ObjectId, BoundingBox>, t: Tree, r: BoundingBox,
                                    x: ObjectId)
    ensures multiset(SubtreeOut(qy, boxes, t, r))[x] <= if Matches(qy, boxes, x) then Ids(t)[x] else 0
    decreases Weight(t), 1, 0
  {
    if t.Node? {
      var own: seq<ObjectId> := Filter(qy, boxes, t.objects);
      var below: seq<ObjectId> := ChildrenAfter(qy, boxes, t, r, NoChild);
      assert multiset(SubtreeOut(qy, boxes, t, r))[x] == multiset(own)[x] + multiset(below)[x] by {
        assert SubtreeOut(qy, boxes, t, r) == own + below;
      }
      ChildrenAfterSound(qy, boxes, t, r, NoChild, x);
      CountInNode(t, x);
      CountAfterAll(t, x);
    }
  }

  /** The children after NoChild are all four. */
  lemma CountAfterAll(t: Tree, x: ObjectId)
    ensures CountAfter(t, NoChild, x) == Ids(Child(t, TopLeft))[x] + Ids(Child(t, TopRight))[x]
                                        + Ids(Child(t, BottomRight))[x] + Ids(Child(t, BottomLeft))[x]
  {
    assert CountAfter(t, BottomRight, x) == Ids(Child(t, BottomLeft))[x];
    assert CountAfter(t, TopRight, x) == Ids(Child(t, BottomRight))[x] + Ids(Child(t, BottomLeft))[x];
  }

  lemma {:induction false} ChildrenAfterSound(qy: Query, boxes: map<ObjectId, BoundingBox>, t: Tree,
                                              r: BoundingBox, p: ChildPosition, x: ObjectId)
    requires t.Node?
    ensures multiset(ChildrenAfter(qy, boxes, t, r, p))[x] <=
            if Matches(qy, boxes, x) then CountAfter(t, p, x) else 0
    decreases Weight(t), 0, 4 - Ord(p)
  {
    if p != BottomLeft {
      var c := After(p);
      if Visible(qy, Child(t, c), ChildRegion(r, c)) {
        OutSound(qy, boxes, Child(t, c), ChildRegion(r, c), x);
      }
      ChildrenAfterSound(qy, boxes, t, r, c, x);
    }
  }

  /** Every stored box is well formed. */
  ghost predicate BoxesWellFormed(boxes: map<ObjectId, BoundingBox>)
  {
    forall id :: id in boxes ==> boxes[id].WellFormed()
  }

  lemma {:induction false} OutComplete(qy: Query, boxes: map<ObjectId, BoundingBox>, t: Tree, r: BoundingBox,
                                       x: ObjectId)
    requires Placed(t, r, boxes) && r.WellFormed() && BoxesWellFormed(boxes)
    requires x in Ids(t) && Matches(qy, boxes, x)
    ensures x in SubtreeOut(qy, boxes, t, r)
    decreases Weight(t), 1, 0
  {
    var own: seq<ObjectId> := Filter(qy, boxes, t.objects);
    var below: seq<ObjectId> := ChildrenAfter(qy, boxes, t, r, NoChild);
    assert SubtreeOut(qy, boxes, t, r) == own + below;
    CountInNode(t, x);
    if x in t.objects {
      assert multiset(own)[x] > 0;
      assert x in own;
    } else {
      CountAfterAll(t, x);
      ChildrenAfterComplete(qy, boxes, t, r, NoChild, x);
      assert x in below;
    }
  }

  lemma {:induction false} ChildrenAfterComplete(qy: Query, boxes: map<ObjectId, BoundingBox>, t: Tree,
                                                 r: BoundingBox, p: ChildPosition, x: ObjectId)
    requires t.Node? && Placed(t, r, boxes) && r.WellFormed() && BoxesWellFormed(boxes)
    requires CountAfter(t, p, x) > 0 && Matches(qy, boxes, x)
    ensures x in ChildrenAfter(qy, boxes, t, r, p)
    decreases Weight(t), 0, 4 - Ord(p)
  {
    var c := After(p);
    var child, cr := Child(t, c), ChildRegion(r, c);
    if x in Ids(child) {
      PlacedChild(t, r, boxes, c);
      ChildInside(r, c);
      PlacedWithin(child, cr, boxes, x);
      LooseCoversTight(cr);
      PruneSound(qy, Loose(cr), boxes[x]);
      OutComplete(qy, boxes, child, cr, x);
    } else {
      ChildrenAfterComplete(qy, boxes, t, r, c, x);
    }
  }

  /** Query correctness: from a placed root, each query yields every stored
      object that satisfies its predicate, exactly once if it is stored once,
      and nothing else. */
  lemma QueryExact(qy: Query, boxes: map<ObjectId, BoundingBox>, root: Tree, r: BoundingBox, x: ObjectId)
    requires Placed(root, r, boxes) && r.WellFormed() && BoxesWellFormed(boxes)
    requires Ids(root)[x] <= 1
    ensures multiset(QueryOut(qy, boxes, root, r))[x] ==
            if x in Ids(root) && Matches(qy, boxes, x) then 1 else 0
  {
    OutSound(qy, boxes, root, r, x);
    if x in Ids(root) && Matches(qy, boxes, x) {
      PlacedWithin(root, r, boxes, x);
      LooseCoversTight(r);
      PruneSound(qy, Loose(r), boxes[x]);
      OutComplete(qy, boxes, root, r, x);
    }
  }

  /** Reclaiming empty nodes never changes what a scan yields. */
  lemma {:induction false} CleanupOut(qy: Query, boxes: map<ObjectId, BoundingBox>, t: Tree, r: BoundingBox)
    ensures SubtreeOut(qy, boxes, Cleanup(t), r) == SubtreeOut(qy, boxes, t, r)
    decreases Weight(t), 1, 0
  {
    if t.Node? {
      CleanupChildrenAfter(qy, boxes, t, r, NoChild);
    }
  }

  lemma {:induction false} CleanupChildrenAfter(qy: Query, boxes: map<ObjectId, BoundingBox>, t: Tree,
                                                r: BoundingBox, p: ChildPosition)
    requires t.Node?
    ensures Cleanup(t).Node? ==>
            ChildrenAfter(qy, boxes, Cleanup(t), r, p) == ChildrenAfter(qy, boxes, t, r, p)
    ensures Cleanup(t).Nil? ==> ChildrenAfter(qy, boxes, t, r, p) == []
    decreases Weight(t), 0, 4 - Ord(p)
  {
    if p != BottomLeft {
      var c := After(p);
      CleanupContribution(qy, boxes, t, r, c);
      CleanupChildrenAfter(qy, boxes, t, r, c);
      if Cleanup(t).Nil? {
        assert ChildrenAfter(qy, boxes, t, r, p) == [] + [];
      }
    }
  }

  /** One child's share of a scan is the same after cleanup, and nothing when
      cleanup reclaims the whole node. */
  lemma {:induction false} CleanupContribution(qy: Query, boxes: map<ObjectId, BoundingBox>, t: Tree,
                                               r: BoundingBox, c: Quadrant)
    requires t.Node?
    ensures Cleanup(t).Node? ==> Contribution(qy, boxes, Cleanup(t), r, c) == Contribution(qy, boxes, t, r, c)
    ensures Cleanup(t).Nil? ==> Contribution(qy, boxes, t, r, c) == []
    decreases Weight(t), 0, 0
  {
    var child, cr := Child(t, c), ChildRegion(r, c);
    CleanupOut(qy, boxes, child, cr);
    if Cleanup(t).Node? {
      CleanupChild(t, c);
    }
  }

  lemma QueryOutCleanup(qy: Query, boxes: map<ObjectId, BoundingBox>, root: Tree, r: BoundingBox)
    ensures QueryOut(qy, boxes, Cleanup(root), r) == QueryOut(qy, boxes, root, r)
  {
    CleanupOut(qy, boxes, root, r);
    if root.Node? && Cleanup(root).Nil? {
      CleanupChildrenAfter(qy, boxes, root, r, NoChild);
    }
  }
}
